/**
 * Refresh rotation as a distributed protocol: any number of tabs share local storage and a
 * cross-tab lock, and the server consumes each refresh token atomically.  Every step below is one
 * stretch of code that runs without interruption; a run is any sequence of steps.
 */
module TokenRotation {
  import opened Prelude
  import opened RefreshTokens
  import opened ApiClient

  /**
   * Where one actor stands.  The phases from `Waiting` to `Finished` are a tab inside its single
   * refresh; the two `SigningIn` phases are a login, which takes no lock.
   */
  datatype Phase =
    | Idle
    | Waiting(failed: Option<string>)
    | Posted(failed: Option<string>, rt: string)                // request sent, row not yet deleted
    | Spending(failed: Option<string>, rt: string, row: Row)    // row deleted, successor not yet stored
    | Answered(rt: string, access: string, next: string)       // answer on its way to the tab
    | AccessWritten(rt: string, access: string, next: string)  // first of the two storage writes done
    | Finished(result: Option<string>)                          // promise settled, lock not yet released
    | SigningIn(access: string, next: string)
    | SigningInAccessWritten(next: string)

  datatype Exchange = Exchange(failed: Option<string>, spent: string, successor: string)

  datatype State = State(
    locks: bool,                  // whether the browser offers cross-tab locks
    role: Role,
    access: Option<string>,       // stored access token
    refresh: Option<string>,      // stored refresh token
    holder: Option<nat>,          // tab that holds the lock
    actors: map<nat, Phase>,
    rows: Rows,
    issued: set<string>,          // every refresh token ever created
    exchanges: seq<Exchange>,     // successful rotations, in order
    deadPosts: nat,               // requests sent with a token whose row was already gone
    refused: nat,                 // requests whose token was not found by the server
    accesses: set<string>,        // every access token ever minted
    everStored: set<string>)      // every access token that was ever in storage

  datatype Event =
    | Start(actor: nat, failed: Option<string>)
    | Enter(actor: nat)
    | Consume(actor: nat, now: int)
    | Issue(actor: nat, access: string, next: string, now: int)
    | Drop(actor: nat)            // the request never reached the server
    | Lose(actor: nat)            // the answer, or the server between its two statements, was lost
    | WriteAccess(actor: nat)
    | WriteRefresh(actor: nat)
    | Leave(actor: nat)
    | SignIn(actor: nat, access: string, next: string, userId: int, address: string, now: int)
    | SignInAccess(actor: nat)
    | SignInRefresh(actor: nat)
    | ClearAccess
    | ClearRefresh
    | Sweep(now: int)
    | Logout(token: string)

  function At(s: State, a: nat): Phase {
    if a in s.actors then s.actors[a] else Idle
  }

  function Put(s: State, a: nat, p: Phase): State {
    s.(actors := s.actors[a := p])
  }

  /** Randomly drawn tokens are new and non-empty. */
  predicate Fresh(s: State, token: string) {
    token != "" && token !in s.issued
  }

  /** One atomic step; an event that is not enabled changes nothing. */
  function Step(s: State, e: Event): State {
    match e
    case Start(a, failed) =>
      if At(s, a).Idle? && (failed.Some? ==> failed.value in s.everStored) then Put(s, a, Waiting(failed)) else s
    case Enter(a) =>
      if !At(s, a).Waiting? || (s.locks && s.holder.Some?) then s else
      var failed := At(s, a).failed;
      var s1 := if s.locks then s.(holder := Some(a)) else s;
      (match Begin(s.access, s.refresh, failed)
       case Reuse(token) => Put(s1, a, Finished(Some(token)))
       case NoRefreshToken => Put(s1, a, Finished(None))
       case PostToken(rt) =>
         Put(s1, a, Posted(failed, rt)).(deadPosts := s.deadPosts + if rt in s.rows then 0 else 1))
    case Consume(a, now) =>
      if !At(s, a).Posted? then s else
      var Posted(failed, rt) := At(s, a);
      var s1 := s.(rows := AfterConsume(s.rows, rt, s.role));
      (match Validate(s.rows, rt, s.role, now)
       case Missing => Put(s1, a, Finished(None)).(refused := s.refused + 1)
       case Expired => Put(s1, a, Finished(None))
       case Accepted(row) => Put(s1, a, Spending(failed, rt, row)))
    case Issue(a, access, next, now) =>
      if !(At(s, a).Spending? && Fresh(s, next) && access != "") then s else
      var Spending(failed, rt, row) := At(s, a);
      Put(s, a, Answered(rt, access, next)).(
        rows := s.rows[next := NewRow(row.userId, row.address, s.role, now)],
        issued := s.issued + {next},
        accesses := s.accesses + {access},
        exchanges := s.exchanges + [Exchange(failed, rt, next)])
    case Drop(a) => if At(s, a).Posted? then Put(s, a, Finished(None)) else s
    case Lose(a) => if At(s, a).Spending? || At(s, a).Answered? then Put(s, a, Finished(None)) else s
    case WriteAccess(a) =>
      if !At(s, a).Answered? then s else
      var Answered(rt, access, next) := At(s, a);
      Put(s, a, AccessWritten(rt, access, next)).(
        access := Some(access), everStored := s.everStored + {access})
    case WriteRefresh(a) =>
      if !At(s, a).AccessWritten? then s else
      Put(s, a, Finished(Some(At(s, a).access))).(refresh := Some(At(s, a).next))
    case Leave(a) =>
      if !At(s, a).Finished? then s else
      Put(s, a, Idle).(holder := if s.holder == Some(a) then None else s.holder)
    case SignIn(a, access, next, userId, address, now) =>
      if !(At(s, a).Idle? && Fresh(s, next) && access != "") then s else
      Put(s, a, SigningIn(access, next)).(
        rows := s.rows[next := NewRow(userId, address, s.role, now)],
        issued := s.issued + {next},
        accesses := s.accesses + {access})
    case SignInAccess(a) =>
      if !At(s, a).SigningIn? then s else
      Put(s, a, SigningInAccessWritten(At(s, a).next)).(
        access := Some(At(s, a).access), everStored := s.everStored + {At(s, a).access})
    case SignInRefresh(a) =>
      if !At(s, a).SigningInAccessWritten? then s else
      Put(s, a, Idle).(refresh := Some(At(s, a).next))
    case ClearAccess => s.(access := None)
    case ClearRefresh => s.(refresh := None)
    case Sweep(now) => s.(rows := AfterSweep(s.rows, now))
    case Logout(token) => s.(rows := s.rows - {token})
  }

  function Run(s: State, es: seq<Event>): State
    decreases |es|
  {
    if es == [] then s else Run(Step(s, es[0]), es[1..])
  }

  // ---------------------------------------------------------------------------------------------
  // Safe runs: no answer lost after its token was spent, no expired token spent, and nothing
  // deletes a row that some tab still relies on.
  // ---------------------------------------------------------------------------------------------

  /** The token whose row an actor still counts on. */
  function Relies(p: Phase): Option<string> {
    match p
    case Posted(_, rt) => Some(rt)
    case _ => Pending(p)
  }

  /** The token an actor has been given but not yet written to storage. */
  function Pending(p: Phase): Option<string> {
    match p
    case Answered(_, _, next) => Some(next)
    case AccessWritten(_, _, next) => Some(next)
    case SigningIn(_, next) => Some(next)
    case SigningInAccessWritten(next) => Some(next)
    case _ => None
  }

  /** The token whose row an actor has had deleted while storage may still name it. */
  function Spent(p: Phase): Option<string> {
    match p
    case Spending(_, rt, _) => Some(rt)
    case Answered(rt, _, _) => Some(rt)
    case AccessWritten(rt, _, _) => Some(rt)
    case _ => None
  }

  predicate Critical(p: Phase) {
    p.Posted? || p.Spending? || p.Answered? || p.AccessWritten? || p.Finished?
  }

  ghost predicate InUse(s: State, token: string) {
    s.refresh == Some(token) || exists a :: a in s.actors && Relies(s.actors[a]) == Some(token)
  }

  ghost predicate Safe(s: State, e: Event) {
    match e
    case Consume(a, now) =>
      At(s, a).Posted? && At(s, a).rt in s.rows ==> now <= s.rows[At(s, a).rt].expiresAt
    case Lose(a) => !At(s, a).Spending? && !At(s, a).Answered?
    case Sweep(now) => forall t :: t in s.rows && InUse(s, t) ==> !(s.rows[t].expiresAt < now)
    case Logout(token) => !InUse(s, token)
    case _ => true
  }

  ghost predicate SafeRun(s: State, es: seq<Event>)
    decreases |es|
  {
    es == [] || (Safe(s, es[0]) && SafeRun(Step(s, es[0]), es[1..]))
  }

  /** The stored refresh token is absent or has a row on the server. */
  predicate StoredIsLive(s: State) {
    Truthy(s.refresh) ==> s.refresh.value in s.rows
  }

  ghost predicate Init(s: State) {
    && s.locks && s.holder == None && s.actors == map[]
    && s.deadPosts == 0 && s.refused == 0 && s.exchanges == []
    && (forall t :: t in s.rows ==> t in s.issued && s.rows[t].role == s.role)
    && StoredIsLive(s)
    && (s.access.Some? ==> s.access.value in s.everStored)
    && s.everStored <= s.accesses
  }

  /** Every phase that runs under the lock belongs to the tab that holds it, and to no other. */
  ghost predicate LockInv(s: State) {
    && s.locks
    && (forall a :: a in s.actors ==> (Critical(s.actors[a]) <==> s.holder == Some(a)))
    && (s.holder.Some? ==> s.holder.value in s.actors)
  }

  ghost predicate TokenInv(s: State) {
    && (forall t :: t in s.rows ==> t in s.issued && s.rows[t].role == s.role)
    && (forall a :: a in s.actors && Relies(s.actors[a]).Some? ==> Relies(s.actors[a]).value in s.rows)
    && (forall a :: a in s.actors && Spent(s.actors[a]).Some? ==> Spent(s.actors[a]).value in s.issued)
    && (forall a, b :: a in s.actors && b in s.actors && a != b && Pending(s.actors[a]).Some? ==>
          Pending(s.actors[a]) != Relies(s.actors[b]))
    && (forall a :: a in s.actors && Pending(s.actors[a]).Some? ==> Pending(s.actors[a]) != s.refresh)
  }

  ghost predicate StoredInv(s: State) {
    Truthy(s.refresh) ==>
      || s.refresh.value in s.rows
      || (s.holder.Some? && s.holder.value in s.actors && Spent(s.actors[s.holder.value]) == s.refresh)
  }

  ghost predicate Inv(s: State) {
    LockInv(s) && TokenInv(s) && StoredInv(s) && s.deadPosts == 0 && s.refused == 0
  }

  /** An actor that gives up or keeps what it relied on disturbs nobody. */
  lemma PutKeepsTokenInv(s: State, a: nat, p: Phase)
    requires TokenInv(s)
    requires Relies(p).Some? ==> Relies(p) == Relies(At(s, a)) && Pending(p) == Pending(At(s, a))
    requires Spent(p).Some? ==> Spent(p) == Spent(At(s, a))
    ensures TokenInv(Put(s, a, p))
  {
  }

  lemma StartKeepsInv(s: State, e: Event)
    requires Inv(s) && e.Start?
    ensures Inv(Step(s, e))
  {
    if At(s, e.actor).Idle? {
      PutKeepsTokenInv(s, e.actor, Waiting(e.failed));
    }
  }

  lemma EnterKeepsLock(s: State, e: Event)
    requires Inv(s) && e.Enter? && At(s, e.actor).Waiting? && s.holder.None?
    ensures LockInv(Step(s, e))
  {
    assert forall b :: b in s.actors ==> !Critical(s.actors[b]);
  }

  lemma EnterPuts(s: State, e: Event)
    requires e.Enter? && At(s, e.actor).Waiting? && s.holder.None?
    ensures var s' := Step(s, e);
            && e.actor in s'.actors
            && s' == Put(s, e.actor, s'.actors[e.actor]).(holder := s'.holder, deadPosts := s'.deadPosts)
            && (s'.actors[e.actor].Finished?
                || (s'.actors[e.actor].Posted? && Truthy(s.refresh) && s'.actors[e.actor].rt == s.refresh.value))
  {
  }

  /** Sending the stored token relies on a row that nobody else is about to store. */
  lemma PostKeepsTokenInv(s: State, a: nat, p: Phase)
    requires TokenInv(s) && p.Posted? && s.refresh == Some(p.rt) && p.rt in s.rows
    ensures TokenInv(Put(s, a, p))
  {
  }

  lemma EnterKeepsTokens(s: State, e: Event)
    requires Inv(s) && e.Enter? && At(s, e.actor).Waiting? && s.holder.None?
    ensures TokenInv(Step(s, e))
  {
    EnterPuts(s, e);
    var p := Step(s, e).actors[e.actor];
    if p.Posted? {
      PostKeepsTokenInv(s, e.actor, p);
    } else {
      PutKeepsTokenInv(s, e.actor, p);
    }
  }

  lemma EnterKeepsInv(s: State, e: Event)
    requires Inv(s) && e.Enter?
    ensures Inv(Step(s, e))
  {
    if At(s, e.actor).Waiting? && s.holder.None? {
      EnterKeepsLock(s, e);
      EnterKeepsTokens(s, e);
    }
  }

  /** Giving up a request, losing nothing, and letting go of the lock. */
  lemma LetGoKeepsInv(s: State, e: Event)
    requires Inv(s) && Safe(s, e) && (e.Drop? || e.Lose? || e.Leave?)
    ensures Inv(Step(s, e))
  {
    if At(s, e.actor).Posted? {
      PutKeepsTokenInv(s, e.actor, Finished(None));
    } else if At(s, e.actor).Finished? {
      PutKeepsTokenInv(s, e.actor, Idle);
      assert s.holder == Some(e.actor);
    }
  }

  lemma ConsumeKeepsInv(s: State, e: Event)
    requires Inv(s) && Safe(s, e) && e.Consume?
    ensures Inv(Step(s, e))
  {
    if At(s, e.actor).Posted? {
      assert Relies(s.actors[e.actor]) == Some(At(s, e.actor).rt);
      assert forall b :: b in s.actors && b != e.actor ==> !Critical(s.actors[b]);
    }
  }

  /** A freshly drawn token is used nowhere yet, so handing it to one actor keeps tokens apart. */
  lemma PutFreshKeepsTokenInv(s: State, a: nat, p: Phase, token: string, row: Row)
    requires TokenInv(s) && Fresh(s, token) && row.role == s.role
    requires Pending(p) == Relies(p) == Some(token)
    requires Spent(p).Some? ==> Spent(p) == Spent(At(s, a))
    requires Truthy(s.refresh) ==> s.refresh.value in s.issued
    ensures TokenInv(Put(s, a, p).(rows := s.rows[token := row], issued := s.issued + {token}))
  {
  }

  lemma StoredWasIssued(s: State)
    requires TokenInv(s) && StoredInv(s)
    ensures Truthy(s.refresh) ==> s.refresh.value in s.issued
  {
  }

  lemma MintKeepsInv(s: State, e: Event)
    requires Inv(s) && (e.Issue? || e.SignIn?)
    ensures Inv(Step(s, e))
  {
    StoredWasIssued(s);
    if e.Issue? && At(s, e.actor).Spending? && Fresh(s, e.next) && e.access != "" {
      var Spending(failed, rt, row) := At(s, e.actor);
      PutFreshKeepsTokenInv(s, e.actor, Answered(rt, e.access, e.next), e.next,
                            NewRow(row.userId, row.address, s.role, e.now));
      assert TokenInv(Step(s, e));
    } else if e.SignIn? && At(s, e.actor).Idle? && Fresh(s, e.next) && e.access != "" {
      PutFreshKeepsTokenInv(s, e.actor, SigningIn(e.access, e.next), e.next,
                            NewRow(e.userId, e.address, s.role, e.now));
      assert TokenInv(Step(s, e));
    }
  }

  lemma WriteAccessKeepsInv(s: State, e: Event)
    requires Inv(s) && (e.WriteAccess? || e.SignInAccess? || e.ClearAccess? || e.ClearRefresh?)
    ensures Inv(Step(s, e))
  {
    if e.WriteAccess? && At(s, e.actor).Answered? {
      var Answered(rt, access, next) := At(s, e.actor);
      PutKeepsTokenInv(s, e.actor, AccessWritten(rt, access, next));
    } else if e.SignInAccess? && At(s, e.actor).SigningIn? {
      PutKeepsTokenInv(s, e.actor, SigningInAccessWritten(At(s, e.actor).next));
    }
  }

  lemma WriteRefreshKeepsInv(s: State, e: Event)
    requires Inv(s) && (e.WriteRefresh? || e.SignInRefresh?)
    ensures Inv(Step(s, e))
  {
    var p := At(s, e.actor);
    if e.WriteRefresh? && p.AccessWritten? {
      assert Relies(s.actors[e.actor]) == Pending(s.actors[e.actor]) == Some(p.next);
      PutKeepsTokenInv(s, e.actor, Finished(Some(p.access)));
    } else if e.SignInRefresh? && p.SigningInAccessWritten? {
      assert Relies(s.actors[e.actor]) == Pending(s.actors[e.actor]) == Some(p.next);
      PutKeepsTokenInv(s, e.actor, Idle);
    }
  }

  lemma DeleteKeepsInv(s: State, e: Event)
    requires Inv(s) && Safe(s, e) && (e.Sweep? || e.Logout?)
    ensures Inv(Step(s, e))
  {
  }

  lemma InvStep(s: State, e: Event)
    requires Inv(s) && Safe(s, e)
    ensures Inv(Step(s, e))
  {
    match e
    case Start(_, _) => StartKeepsInv(s, e);
    case Enter(_) => EnterKeepsInv(s, e);
    case Drop(_) => LetGoKeepsInv(s, e);
    case Lose(_) => LetGoKeepsInv(s, e);
    case Leave(_) => LetGoKeepsInv(s, e);
    case Consume(_, _) => ConsumeKeepsInv(s, e);
    case Issue(_, _, _, _) => MintKeepsInv(s, e);
    case SignIn(_, _, _, _, _, _) => MintKeepsInv(s, e);
    case Sweep(_) => DeleteKeepsInv(s, e);
    case Logout(_) => DeleteKeepsInv(s, e);
    case WriteRefresh(_) => WriteRefreshKeepsInv(s, e);
    case SignInRefresh(_) => WriteRefreshKeepsInv(s, e);
    case _ => WriteAccessKeepsInv(s, e);
  }

  lemma {:induction false} InvRun(s: State, es: seq<Event>)
    requires Inv(s) && SafeRun(s, es)
    ensures Inv(Run(s, es))
    decreases |es|
  {
    if es != [] {
      InvStep(s, es[0]);
      InvRun(Step(s, es[0]), es[1..]);
    }
  }

  /**
   * Main result.  Over every interleaving of tabs, logins, clears, sweeps and dropped requests:
   * whenever the lock is free the stored refresh token is absent or live, no tab ever sends a
   * token whose row is gone, and the server never answers "no such token".
   */
  lemma RotationIsSafe(s: State, es: seq<Event>)
    requires Init(s) && SafeRun(s, es)
    ensures Run(s, es).holder == None ==> StoredIsLive(Run(s, es))
    ensures Run(s, es).deadPosts == 0 && Run(s, es).refused == 0
  {
    InvRun(s, es);
  }

  // ---------------------------------------------------------------------------------------------
  // Single use: holds of every run, safe or not, with or without locks.
  // ---------------------------------------------------------------------------------------------

  ghost predicate SingleUseInv(s: State) {
    && (forall t :: t in s.rows ==> t in s.issued)
    && (forall i :: 0 <= i < |s.exchanges| ==>
          && s.exchanges[i].spent in s.issued && s.exchanges[i].spent !in s.rows
          && s.exchanges[i].successor in s.issued)
    && (forall i, j :: 0 <= i < j < |s.exchanges| ==>
          && s.exchanges[i].spent != s.exchanges[j].spent
          && s.exchanges[i].successor != s.exchanges[j].successor)
    && (forall a :: a in s.actors && s.actors[a].Spending? ==>
          && s.actors[a].rt in s.issued && s.actors[a].rt !in s.rows
          && (forall i :: 0 <= i < |s.exchanges| ==> s.exchanges[i].spent != s.actors[a].rt))
    && (forall a, b :: a in s.actors && b in s.actors && a != b && s.actors[a].Spending? && s.actors[b].Spending? ==>
          s.actors[a].rt != s.actors[b].rt)
  }

  /** Rows may vanish and tabs may move, as long as no row or spending tab appears. */
  lemma LessKeepsSingleUse(s: State, s': State)
    requires SingleUseInv(s) && s'.exchanges == s.exchanges
    requires s'.rows.Keys <= s.rows.Keys && s.issued == s'.issued
    requires forall a :: a in s'.actors && s'.actors[a].Spending? ==> a in s.actors && s'.actors[a] == s.actors[a]
    ensures SingleUseInv(s')
  {
  }

  /** A tab starts spending a token whose row it deleted. */
  lemma SpendKeepsSingleUse(s: State, a: nat, failed: Option<string>, rt: string, row: Row)
    requires SingleUseInv(s) && rt in s.rows
    ensures SingleUseInv(Put(s, a, Spending(failed, rt, row)).(rows := s.rows - {rt}))
  {
  }

  lemma ConsumeKeepsSingleUse(s: State, e: Event)
    requires SingleUseInv(s) && e.Consume?
    ensures SingleUseInv(Step(s, e))
  {
    var s' := Step(s, e);
    if At(s', e.actor).Spending? && s' != s {
      var Posted(failed, rt) := At(s, e.actor);
      SpendKeepsSingleUse(s, e.actor, failed, rt, s.rows[rt]);
    } else {
      LessKeepsSingleUse(s, s');
    }
  }

  lemma IssueKeepsSingleUse(s: State, e: Event)
    requires SingleUseInv(s) && e.Issue?
    ensures SingleUseInv(Step(s, e))
  {
  }

  lemma SignInKeepsSingleUse(s: State, e: Event)
    requires SingleUseInv(s) && e.SignIn?
    ensures SingleUseInv(Step(s, e))
  {
  }

  lemma TabKeepsSingleUse(s: State, e: Event)
    requires SingleUseInv(s)
    requires e.Start? || e.Enter? || e.Drop? || e.Lose? || e.Leave?
    ensures SingleUseInv(Step(s, e))
  {
    LessKeepsSingleUse(s, Step(s, e));
  }

  lemma WriteKeepsSingleUse(s: State, e: Event)
    requires SingleUseInv(s)
    requires e.WriteAccess? || e.WriteRefresh? || e.SignInAccess? || e.SignInRefresh?
    ensures SingleUseInv(Step(s, e))
  {
    LessKeepsSingleUse(s, Step(s, e));
  }

  lemma DeleteKeepsSingleUse(s: State, e: Event)
    requires SingleUseInv(s)
    requires e.ClearAccess? || e.ClearRefresh? || e.Sweep? || e.Logout?
    ensures SingleUseInv(Step(s, e))
  {
  }

  lemma SingleUseStep(s: State, e: Event)
    requires SingleUseInv(s)
    ensures SingleUseInv(Step(s, e))
  {
    if e.Consume? {
      ConsumeKeepsSingleUse(s, e);
    } else if e.Issue? {
      IssueKeepsSingleUse(s, e);
    } else if e.SignIn? {
      SignInKeepsSingleUse(s, e);
    } else if e.Start? || e.Enter? || e.Drop? || e.Lose? || e.Leave? {
      TabKeepsSingleUse(s, e);
    } else if e.WriteAccess? || e.WriteRefresh? || e.SignInAccess? || e.SignInRefresh? {
      WriteKeepsSingleUse(s, e);
    } else {
      DeleteKeepsSingleUse(s, e);
    }
  }

  lemma {:induction false} SingleUseRun(s: State, es: seq<Event>)
    requires SingleUseInv(s)
    ensures SingleUseInv(Run(s, es))
    decreases |es|
  {
    if es != [] {
      SingleUseStep(s, es[0]);
      SingleUseRun(Step(s, es[0]), es[1..]);
    }
  }

  /**
   * Each refresh token is exchanged at most once and every exchange yields its own successor, in
   * any run at all: with or without the lock, with lost answers, expiry and logout.
   */
  lemma EachTokenIsExchangedOnce(s: State, es: seq<Event>, i: nat, j: nat)
    requires s.exchanges == [] && s.actors == map[] && s.rows.Keys <= s.issued
    requires i < j < |Run(s, es).exchanges|
    ensures Run(s, es).exchanges[i].spent != Run(s, es).exchanges[j].spent
    ensures Run(s, es).exchanges[i].successor != Run(s, es).exchanges[j].successor
    ensures Run(s, es).exchanges[i].spent !in Run(s, es).rows
  {
    SingleUseRun(s, es);
  }

  // ---------------------------------------------------------------------------------------------
  // A burst of refused requests costs one exchange.
  // ---------------------------------------------------------------------------------------------

  /** The access token an actor will write to storage later. */
  function PendingAccess(p: Phase): Option<string> {
    match p
    case Answered(_, access, _) => Some(access)
    case SigningIn(access, _) => Some(access)
    case _ => None
  }

  function FailedToken(p: Phase): Option<string> {
    match p
    case Waiting(failed) => failed
    case Posted(failed, _) => failed
    case Spending(failed, _, _) => failed
    case _ => None
  }

  /** Access tokens minted in the run are new. */
  ghost predicate Distinguished(s: State, e: Event) {
    match e
    case Issue(_, access, _, _) => access !in s.accesses
    case SignIn(_, access, _, _, _, _) => access !in s.accesses
    case _ => true
  }

  ghost predicate DistinguishedRun(s: State, es: seq<Event>)
    decreases |es|
  {
    es == [] || (Distinguished(s, es[0]) && DistinguishedRun(Step(s, es[0]), es[1..]))
  }

  /** The answer to the latest exchange has not reached storage yet. */
  predicate AnswerUnderWay(s: State) {
    s.holder.Some? && s.holder.value in s.actors && s.actors[s.holder.value].Answered?
  }

  ghost predicate AccessInv(s: State) {
    && (s.access.Some? ==> s.access.value in s.everStored)
    && s.everStored <= s.accesses
    && (forall a :: a in s.actors && PendingAccess(s.actors[a]).Some? ==>
          && PendingAccess(s.actors[a]).value != ""
          && PendingAccess(s.actors[a]).value in s.accesses
          && PendingAccess(s.actors[a]).value !in s.everStored)
    && (forall a, b :: a in s.actors && b in s.actors && a != b && PendingAccess(s.actors[a]).Some? ==>
          PendingAccess(s.actors[a]) != PendingAccess(s.actors[b]))
    && (forall a :: a in s.actors && FailedToken(s.actors[a]).Some? ==> FailedToken(s.actors[a]).value in s.everStored)
  }

  /** A request is on its way, or being served, because a non-empty access token was refused. */
  predicate UnderWay(p: Phase) {
    (p.Posted? || p.Spending?) && Truthy(FailedToken(p))
  }

  /**
   * No two exchanges were made for one refused token, and none will be: a tab that asks for it again
   * finds another access token in storage or, where `cleared` allows that, no refresh token to send.
   */
  ghost predicate BurstInv(s: State, cleared: bool) {
    && (forall i :: 0 <= i < |s.exchanges| && s.exchanges[i].failed.Some? ==>
          s.exchanges[i].failed.value in s.everStored)
    && (forall i :: 0 <= i < |s.exchanges| && Truthy(s.exchanges[i].failed) ==>
          || (i == |s.exchanges| - 1 && AnswerUnderWay(s))
          || (Truthy(s.access) && s.access != s.exchanges[i].failed)
          || (cleared && !Truthy(s.refresh)))
    && (forall a, i :: a in s.actors && 0 <= i < |s.exchanges| && UnderWay(s.actors[a]) ==>
          s.exchanges[i].failed != FailedToken(s.actors[a]))
    && (forall i, j :: 0 <= i < j < |s.exchanges| && Truthy(s.exchanges[i].failed) ==>
          s.exchanges[i].failed != s.exchanges[j].failed)
  }

  /** An actor that writes the access token it held, or lets go of it, disturbs nobody. */
  lemma PutKeepsAccessInv(s: State, a: nat, p: Phase, s': State)
    requires AccessInv(s) && s'.actors == s.actors[a := p] && s'.accesses == s.accesses
    requires
      || (s'.access == s.access && s'.everStored == s.everStored)
      || (PendingAccess(At(s, a)).Some? && s'.access == PendingAccess(At(s, a))
          && s'.everStored == s.everStored + {PendingAccess(At(s, a)).value})
    requires PendingAccess(p) == None
    requires FailedToken(p).Some? ==> FailedToken(p).value in s.everStored
    ensures AccessInv(s')
  {
  }

  lemma MintKeepsAccessInv(s: State, e: Event)
    requires AccessInv(s) && Distinguished(s, e) && (e.Issue? || e.SignIn?)
    ensures AccessInv(Step(s, e))
  {
  }

  lemma EnterMoves(s: State, e: Event)
    requires e.Enter? && Step(s, e) != s
    ensures var s' := Step(s, e);
            && e.actor in s.actors && e.actor in s'.actors
            && s' == s.(actors := s.actors[e.actor := s'.actors[e.actor]], holder := s'.holder,
                        deadPosts := s'.deadPosts)
            && PendingAccess(s'.actors[e.actor]) == None && PendingAccess(At(s, e.actor)) == None
            && (FailedToken(s'.actors[e.actor]).Some? ==>
                  FailedToken(s'.actors[e.actor]) == FailedToken(At(s, e.actor)))
  {
  }

  lemma EnterKeepsAccessInv(s: State, e: Event)
    requires AccessInv(s) && e.Enter?
    ensures AccessInv(Step(s, e))
  {
    if Step(s, e) != s {
      EnterMoves(s, e);
      PutKeepsAccessInv(s, e.actor, Step(s, e).actors[e.actor], Step(s, e));
    }
  }

  lemma ConsumeKeepsAccessInv(s: State, e: Event)
    requires AccessInv(s) && e.Consume?
    ensures AccessInv(Step(s, e))
  {
    if Step(s, e) != s {
      PutKeepsAccessInv(s, e.actor, Step(s, e).actors[e.actor], Step(s, e));
    }
  }

  lemma TabKeepsAccessInv(s: State, e: Event)
    requires AccessInv(s)
    requires e.Start? || e.Drop? || e.Lose? || e.Leave?
    ensures AccessInv(Step(s, e))
  {
    if Step(s, e) != s {
      PutKeepsAccessInv(s, e.actor, Step(s, e).actors[e.actor], Step(s, e));
    }
  }

  lemma WriteKeepsAccessInv(s: State, e: Event)
    requires AccessInv(s)
    requires e.WriteAccess? || e.WriteRefresh? || e.SignInAccess? || e.SignInRefresh?
    ensures AccessInv(Step(s, e))
  {
    if Step(s, e) != s {
      PutKeepsAccessInv(s, e.actor, Step(s, e).actors[e.actor], Step(s, e));
    }
  }

  lemma AccessInvStep(s: State, e: Event)
    requires AccessInv(s) && Distinguished(s, e)
    ensures AccessInv(Step(s, e))
  {
    match e
    case Issue(_, _, _, _) => MintKeepsAccessInv(s, e);
    case SignIn(_, _, _, _, _, _) => MintKeepsAccessInv(s, e);
    case WriteAccess(_) => WriteKeepsAccessInv(s, e);
    case WriteRefresh(_) => WriteKeepsAccessInv(s, e);
    case SignInAccess(_) => WriteKeepsAccessInv(s, e);
    case SignInRefresh(_) => WriteKeepsAccessInv(s, e);
    case ClearAccess =>
    case ClearRefresh =>
    case Sweep(_) =>
    case Logout(_) =>
    case Enter(_) => EnterKeepsAccessInv(s, e);
    case Consume(_, _) => ConsumeKeepsAccessInv(s, e);
    case _ => TabKeepsAccessInv(s, e);
  }

  /** One actor moves on; it is served for a refused token only if no exchange was made for that. */
  lemma PutKeepsBurst(s: State, s': State, a: nat, p: Phase, cleared: bool)
    requires BurstInv(s, cleared)
    requires s'.actors == s.actors[a := p]
    requires s'.access == s.access && s'.exchanges == s.exchanges && s'.everStored == s.everStored
    requires cleared ==> s'.refresh == s.refresh
    requires AnswerUnderWay(s) ==> AnswerUnderWay(s')
    requires UnderWay(p) ==> forall i :: 0 <= i < |s.exchanges| ==> s.exchanges[i].failed != FailedToken(p)
    ensures BurstInv(s', cleared)
  {
  }

  lemma BurstEnter(s: State, e: Event, cleared: bool)
    requires LockInv(s) && BurstInv(s, cleared) && e.Enter?
    ensures BurstInv(Step(s, e), cleared)
  {
    if At(s, e.actor).Waiting? && s.holder.None? {
      var s', failed := Step(s, e), At(s, e.actor).failed;
      if UnderWay(s'.actors[e.actor]) {
        assert Truthy(failed) && !(Truthy(s.access) && s.access != failed) && Truthy(s.refresh);
        assert forall i :: 0 <= i < |s.exchanges| ==> s.exchanges[i].failed != failed;
      }
      PutKeepsBurst(s, s', e.actor, s'.actors[e.actor], cleared);
    }
  }

  lemma BurstIssue(s: State, e: Event, cleared: bool)
    requires LockInv(s) && AccessInv(s) && BurstInv(s, cleared) && e.Issue?
    ensures BurstInv(Step(s, e), cleared)
  {
    var s' := Step(s, e);
    if s' != s {
      assert s.holder == Some(e.actor);
      assert !AnswerUnderWay(s);
      assert AnswerUnderWay(s');
      assert FailedToken(s.actors[e.actor]) == At(s, e.actor).failed;
      assert forall b :: b in s'.actors ==> !s'.actors[b].Posted? && !s'.actors[b].Spending?;
    }
  }

  /** A new access token reaches storage: it differs from every token refused so far. */
  lemma StoreAccessKeepsBurst(s: State, a: nat, p: Phase, access: string, cleared: bool)
    requires AccessInv(s) && BurstInv(s, cleared) && !UnderWay(p)
    requires a in s.actors && PendingAccess(s.actors[a]) == Some(access)
    ensures BurstInv(Put(s, a, p).(access := Some(access), everStored := s.everStored + {access}), false)
  {
  }

  lemma BurstWriteAccess(s: State, e: Event, cleared: bool)
    requires LockInv(s) && AccessInv(s) && BurstInv(s, cleared) && (e.WriteAccess? || e.SignInAccess?)
    ensures Step(s, e) != s ==> BurstInv(Step(s, e), false)
  {
    if Step(s, e) != s {
      StoreAccessKeepsBurst(s, e.actor, Step(s, e).actors[e.actor], PendingAccess(At(s, e.actor)).value, cleared);
    }
  }

  /** Steps of an actor that write no access token, other than sending a request. */
  predicate Quiet(e: Event) {
    e.Start? || e.Consume? || e.Drop? || e.Lose? || e.Leave? || e.SignIn? || WritesRefresh(e)
  }

  predicate WritesRefresh(e: Event) {
    e.WriteRefresh? || e.SignInRefresh?
  }

  lemma QuietKeepsAnswer(s: State, e: Event)
    requires LockInv(s) && Safe(s, e) && Quiet(e) && AnswerUnderWay(s)
    ensures AnswerUnderWay(Step(s, e))
  {
  }

  lemma QuietMoves(s: State, e: Event)
    requires Quiet(e)
    ensures var s' := Step(s, e);
            && s'.access == s.access && s'.exchanges == s.exchanges && s'.everStored == s.everStored
            && (s'.refresh == s.refresh || WritesRefresh(e))
            && (s' == s || (e.actor in s'.actors && s'.actors == s.actors[e.actor := s'.actors[e.actor]]))
  {
  }

  lemma QuietAsks(s: State, e: Event)
    requires Quiet(e) && UnderWay(At(Step(s, e), e.actor))
    ensures UnderWay(At(s, e.actor)) && FailedToken(At(Step(s, e), e.actor)) == FailedToken(At(s, e.actor))
  {
  }

  lemma BurstQuiet(s: State, e: Event, cleared: bool)
    requires LockInv(s) && BurstInv(s, cleared) && Safe(s, e) && Quiet(e)
    requires cleared ==> !WritesRefresh(e)
    ensures BurstInv(Step(s, e), cleared)
  {
    QuietMoves(s, e);
    if AnswerUnderWay(s) {
      QuietKeepsAnswer(s, e);
    }
    if Step(s, e) != s {
      if UnderWay(At(Step(s, e), e.actor)) {
        QuietAsks(s, e);
      }
      PutKeepsBurst(s, Step(s, e), e.actor, Step(s, e).actors[e.actor], cleared);
    }
  }

  lemma BurstDelete(s: State, e: Event, cleared: bool)
    requires BurstInv(s, cleared) && (e.ClearRefresh? || e.Sweep? || e.Logout?)
    ensures BurstInv(Step(s, e), cleared)
  {
  }

  lemma BurstStep(s: State, e: Event, cleared: bool)
    requires LockInv(s) && AccessInv(s) && BurstInv(s, cleared) && Safe(s, e) && !e.ClearAccess?
    requires cleared ==> !WritesRefresh(e)
    ensures BurstInv(Step(s, e), cleared)
  {
    match e
    case Enter(_) => BurstEnter(s, e, cleared);
    case Issue(_, _, _, _) => BurstIssue(s, e, cleared);
    case WriteAccess(_) => BurstWriteAccess(s, e, cleared);
    case SignInAccess(_) => BurstWriteAccess(s, e, cleared);
    case ClearRefresh => BurstDelete(s, e, cleared);
    case Sweep(_) => BurstDelete(s, e, cleared);
    case Logout(_) => BurstDelete(s, e, cleared);
    case _ => BurstQuiet(s, e, cleared);
  }

  lemma {:induction false} BurstRun(s: State, es: seq<Event>)
    requires Inv(s) && AccessInv(s) && BurstInv(s, false) && SafeRun(s, es) && DistinguishedRun(s, es)
    requires forall e :: e in es ==> !e.ClearAccess?
    ensures BurstInv(Run(s, es), false)
    decreases |es|
  {
    if es != [] {
      InvStep(s, es[0]);
      AccessInvStep(s, es[0]);
      BurstStep(s, es[0], false);
      BurstRun(Step(s, es[0]), es[1..]);
    }
  }

  /**
   * However many tabs saw the same access token refused, at most one of them spends a refresh
   * token for it: the others find the access token it brought back and reuse that.
   */
  lemma OneExchangePerRefusedToken(s: State, es: seq<Event>, i: nat, j: nat)
    requires Init(s) && SafeRun(s, es) && DistinguishedRun(s, es)
    requires forall e :: e in es ==> !e.ClearAccess?
    requires i < j < |Run(s, es).exchanges| && Truthy(Run(s, es).exchanges[i].failed)
    ensures Run(s, es).exchanges[i].failed != Run(s, es).exchanges[j].failed
  {
    BurstRun(s, es);
  }

  // ---------------------------------------------------------------------------------------------
  // The same with clears, when storage is written and cleared without interruption.
  // ---------------------------------------------------------------------------------------------

  /** What one tab does to storage in one go; any other event by itself. */
  datatype Task = Once(e: Event) | StoreAnswer(actor: nat) | StoreSignIn(actor: nat) | ClearTokens

  predicate TouchesStorage(e: Event) {
    e.WriteAccess? || e.SignInAccess? || e.ClearAccess? || e.ClearRefresh? || WritesRefresh(e)
  }

  predicate Whole(t: Task) {
    t.Once? ==> !TouchesStorage(t.e)
  }

  function EventsOf(t: Task): seq<Event> {
    match t
    case Once(e) => [e]
    case StoreAnswer(a) => [WriteAccess(a), WriteRefresh(a)]
    case StoreSignIn(a) => [SignInAccess(a), SignInRefresh(a)]
    case ClearTokens => [ClearAccess, ClearRefresh]
  }

  function AllEvents(ts: seq<Task>): seq<Event> {
    if ts == [] then [] else EventsOf(ts[0]) + AllEvents(ts[1..])
  }

  /** Nobody has written one of two tokens and not the other. */
  ghost predicate StorageIsWhole(s: State) {
    forall a :: a in s.actors ==> !s.actors[a].AccessWritten? && !s.actors[a].SigningInAccessWritten?
  }

  ghost predicate TaskInv(s: State) {
    Inv(s) && AccessInv(s) && BurstInv(s, true) && StorageIsWhole(s)
  }

  lemma OnceKeepsStorageWhole(s: State, e: Event)
    requires StorageIsWhole(s) && !TouchesStorage(e)
    ensures StorageIsWhole(Step(s, e))
  {
  }

  lemma OnceKeepsTaskInv(s: State, e: Event)
    requires TaskInv(s) && Safe(s, e) && Distinguished(s, e) && !TouchesStorage(e)
    ensures TaskInv(Step(s, e))
  {
    InvStep(s, e);
    AccessInvStep(s, e);
    BurstStep(s, e, true);
    OnceKeepsStorageWhole(s, e);
  }

  /** Both writes of one tab; the second one finishes what the first one began, or neither does anything. */
  lemma StoreIsWhole(s: State, t: Task)
    requires StorageIsWhole(s) && (t.StoreAnswer? || t.StoreSignIn?)
    ensures var e, f := EventsOf(t)[0], EventsOf(t)[1];
            StorageIsWhole(Step(Step(s, e), f)) && (Step(s, e) == s ==> Step(s, f) == s)
  {
    var e, f := EventsOf(t)[0], EventsOf(t)[1];
    var s' := Step(Step(s, e), f);
    forall a | a in s'.actors && a != t.actor
      ensures !s'.actors[a].AccessWritten? && !s'.actors[a].SigningInAccessWritten?
    {
      assert a in s.actors && s'.actors[a] == s.actors[a];
    }
  }

  lemma StoreKeepsTaskInv(s: State, t: Task)
    requires TaskInv(s) && (t.StoreAnswer? || t.StoreSignIn?)
    ensures TaskInv(Step(Step(s, EventsOf(t)[0]), EventsOf(t)[1]))
  {
    var e, f := EventsOf(t)[0], EventsOf(t)[1];
    var s1 := Step(s, e);
    StoreIsWhole(s, t);
    if s1 != s {
      InvStep(s, e);
      AccessInvStep(s, e);
      BurstWriteAccess(s, e, true);
      InvStep(s1, f);
      AccessInvStep(s1, f);
      BurstStep(s1, f, false);
    }
  }

  lemma ClearKeepsTaskInv(s: State)
    requires TaskInv(s)
    ensures TaskInv(Step(Step(s, ClearAccess), ClearRefresh))
  {
    var s1 := Step(s, ClearAccess);
    InvStep(s, ClearAccess);
    InvStep(s1, ClearRefresh);
    AccessInvStep(s, ClearAccess);
    AccessInvStep(s1, ClearRefresh);
  }

  lemma TwoSteps(s: State, e: Event, f: Event, es: seq<Event>)
    requires SafeRun(s, [e, f] + es) && DistinguishedRun(s, [e, f] + es)
    ensures var s' := Step(Step(s, e), f);
            && Run(s, [e, f] + es) == Run(s', es)
            && SafeRun(s', es) && DistinguishedRun(s', es)
  {
    assert ([e, f] + es)[1..] == [f] + es && ([f] + es)[1..] == es;
  }

  lemma {:induction false} TaskRun(s: State, ts: seq<Task>)
    requires TaskInv(s) && SafeRun(s, AllEvents(ts)) && DistinguishedRun(s, AllEvents(ts))
    requires forall t :: t in ts ==> Whole(t)
    ensures TaskInv(Run(s, AllEvents(ts)))
    decreases |ts|
  {
    if ts != [] {
      var rest := AllEvents(ts[1..]);
      assert Whole(ts[0]);
      match ts[0] {
        case Once(e) =>
          assert ([e] + rest)[1..] == rest;
          OnceKeepsTaskInv(s, e);
          TaskRun(Step(s, e), ts[1..]);
        case ClearTokens =>
          TwoSteps(s, ClearAccess, ClearRefresh, rest);
          ClearKeepsTaskInv(s);
          TaskRun(Step(Step(s, ClearAccess), ClearRefresh), ts[1..]);
        case t =>
          var e, f := EventsOf(t)[0], EventsOf(t)[1];
          assert EventsOf(t) == [e, f];
          TwoSteps(s, e, f, rest);
          StoreKeepsTaskInv(s, t);
          TaskRun(Step(Step(s, e), f), ts[1..]);
      }
    }
  }

  /** A refused access token costs one exchange although tabs clear the session in between. */
  lemma OneExchangeDespiteClears(s: State, ts: seq<Task>, i: nat, j: nat)
    requires Init(s) && SafeRun(s, AllEvents(ts)) && DistinguishedRun(s, AllEvents(ts))
    requires forall t :: t in ts ==> Whole(t)
    requires i < j < |Run(s, AllEvents(ts)).exchanges| && Truthy(Run(s, AllEvents(ts)).exchanges[i].failed)
    ensures Run(s, AllEvents(ts)).exchanges[i].failed != Run(s, AllEvents(ts)).exchanges[j].failed
  {
    TaskRun(s, ts);
  }

  // ---------------------------------------------------------------------------------------------
  // Exactly when one refresh leaves a live token behind, and why the lock is needed.
  // ---------------------------------------------------------------------------------------------

  /** One refresh from its request to the release of the lock; `lost` says the answer went missing. */
  function AfterRefresh(s: State, a: nat, now: int, lost: bool, access: string, next: string): State {
    var s1 := Step(s, Consume(a, now));
    var s2 := if lost then Step(s1, Lose(a))
              else Step(Step(Step(s1, Issue(a, access, next, now)), WriteAccess(a)), WriteRefresh(a));
    Step(s2, Leave(a))
  }

  lemma Served(s: State, a: nat, access: string, next: string, now: int)
    requires At(s, a).Spending? && Fresh(s, next) && access != ""
    ensures
      var row := At(s, a).row;
      var s' := Step(Step(Step(s, Issue(a, access, next, now)), WriteAccess(a)), WriteRefresh(a));
      && At(s', a).Finished? && s'.holder == s.holder && s'.refresh == Some(next)
      && s'.rows == s.rows[next := NewRow(row.userId, row.address, s.role, now)]
  {
    var s1 := Step(s, Issue(a, access, next, now));
    assert At(s1, a) == Answered(At(s, a).rt, access, next);
    var s2 := Step(s1, WriteAccess(a));
    assert At(s2, a) == AccessWritten(At(s, a).rt, access, next) && s2.rows == s1.rows;
  }

  /** The row of a sent token is there and goes; what the tab does next depends on its expiry. */
  lemma ConsumedOrNot(s: State, a: nat, now: int)
    requires TokenInv(s) && At(s, a).Posted?
    ensures At(s, a).rt in s.rows
    ensures var s', rt := Step(s, Consume(a, now)), At(s, a).rt;
            && s'.holder == s.holder && s'.refresh == s.refresh && s'.issued == s.issued
            && s'.rows == s.rows - {rt} && s'.role == s.role && s'.exchanges == s.exchanges
            && At(s', a) == if now <= s.rows[rt].expiresAt then Spending(At(s, a).failed, rt, s.rows[rt])
                            else Finished(None)
  {
    assert Relies(s.actors[a]) == Some(At(s, a).rt);
  }

  lemma AlreadyFinished(s: State, a: nat, access: string, next: string, now: int)
    requires At(s, a).Finished?
    ensures Step(s, Lose(a)) == s
    ensures Step(Step(Step(s, Issue(a, access, next, now)), WriteAccess(a)), WriteRefresh(a)) == s
  {
  }

  lemma LockIsReleased(s: State, a: nat)
    requires At(s, a).Finished? && s.holder == Some(a)
    ensures var s' := Step(s, Leave(a));
            s'.holder == None && s'.rows == s.rows && s'.refresh == s.refresh
  {
  }

  /**
   * From any reachable state in which a tab has sent the stored token, completing its refresh
   * leaves a live stored token if and only if the row had not expired and the answer was not lost.
   * In the other cases the lock is released over a token the server no longer knows.
   */
  lemma RefreshLeavesLiveToken(s: State, a: nat, now: int, lost: bool, access: string, next: string)
    requires Inv(s) && At(s, a).Posted? && s.refresh == Some(At(s, a).rt) && At(s, a).rt != ""
    requires Fresh(s, next) && access != ""
    ensures At(s, a).rt in s.rows
    ensures AfterRefresh(s, a, now, lost, access, next).holder == None
    ensures StoredIsLive(AfterRefresh(s, a, now, lost, access, next))
            <==> now <= s.rows[At(s, a).rt].expiresAt && !lost
  {
    assert Critical(s.actors[a]);
    assert s.holder == Some(a);
    ConsumedOrNot(s, a, now);
    var s1 := Step(s, Consume(a, now));
    if At(s1, a).Finished? {
      AlreadyFinished(s1, a, access, next, now);
      LockIsReleased(s1, a);
    } else if lost {
      LockIsReleased(Step(s1, Lose(a)), a);
    } else {
      Served(s1, a, access, next, now);
      LockIsReleased(Step(Step(Step(s1, Issue(a, access, next, now)), WriteAccess(a)), WriteRefresh(a)), a);
    }
  }

  /** The access token that a tab saw refused is still the one in storage, or there is none. */
  predicate NotReplaced(s: State, failed: Option<string>) {
    Truthy(failed) ==> !Truthy(s.access) || s.access == failed
  }

  /**
   * A tab that may go on never comes back with the very token it saw refused: it reuses the token that
   * replaced it or, if none did, posts the stored refresh token.
   */
  lemma RefusedTokenIsNotReused(s: State, a: nat)
    requires At(s, a).Waiting? && (s.locks ==> s.holder.None?)
    ensures
      var failed, p := At(s, a).failed, At(Step(s, Enter(a)), a);
      && (Truthy(failed) ==> p != Finished(failed))
      && (!NotReplaced(s, failed) ==> p == Finished(s.access))
      && (NotReplaced(s, failed) && Truthy(s.refresh) ==> p == Posted(failed, s.refresh.value))
      && (NotReplaced(s, failed) && !Truthy(s.refresh) ==> p == Finished(None))
  {
  }

  lemma EnterPosts(s: State, a: nat)
    requires At(s, a).Waiting? && s.holder.None? && NotReplaced(s, At(s, a).failed) && Truthy(s.refresh)
    ensures var s' := Step(s, Enter(a));
            && At(s', a) == Posted(At(s, a).failed, s.refresh.value) && s'.rows == s.rows
            && s'.issued == s.issued && s'.role == s.role && s'.exchanges == s.exchanges
  {
  }

  /** One refresh of a waiting tab whose answer arrives, up to the end of its promise. */
  function Renewal(a: nat, now: int, access: string, next: string): seq<Event> {
    [Enter(a), Consume(a, now), Issue(a, access, next, now), WriteAccess(a), WriteRefresh(a)]
  }

  lemma FiveSteps(s: State, e0: Event, e1: Event, e2: Event, e3: Event, e4: Event)
    ensures Run(s, [e0, e1, e2, e3, e4]) == Step(Step(Step(Step(Step(s, e0), e1), e2), e3), e4)
  {
    var s1 := Step(s, e0);
    var s2 := Step(s1, e1);
    var s3 := Step(s2, e2);
    assert [e0, e1, e2, e3, e4][1..] == [e1, e2, e3, e4] && [e1, e2, e3, e4][1..] == [e2, e3, e4];
    assert [e2, e3, e4][1..] == [e3, e4] && [e3, e4][1..] == [e4] && [e4][1..] == [];
    var s4 := Step(s3, e3);
    assert Run(s4, [e4]) == Run(Step(s4, e4), []) == Step(s4, e4);
    assert Run(s2, [e2, e3, e4]) == Run(s3, [e3, e4]) == Run(s4, [e4]);
  }

  /**
   * A refused session is renewed: from any reachable state with the lock free, a tab whose refused token
   * nothing replaced and whose stored refresh token has not expired comes back with the new access
   * token, and the new pair is stored and live in place of the old one.
   */
  lemma RefusedSessionIsRenewed(s: State, a: nat, now: int, access: string, next: string)
    requires Inv(s) && s.holder.None? && At(s, a).Waiting? && NotReplaced(s, At(s, a).failed)
    requires Truthy(s.refresh) && s.refresh.value in s.rows && now <= s.rows[s.refresh.value].expiresAt
    requires Fresh(s, next) && access != ""
    ensures
      var s', rt := Run(s, Renewal(a, now, access, next)), s.refresh.value;
      && At(s', a) == Finished(Some(access))
      && s'.access == Some(access) && s'.refresh == Some(next)
      && rt !in s'.rows && next in s'.rows && s'.rows[next].userId == s.rows[rt].userId
      && s'.exchanges == s.exchanges + [Exchange(At(s, a).failed, rt, next)]
  {
    var rt := s.refresh.value;
    var s1 := Step(s, Enter(a));
    EnterKeepsTokens(s, Enter(a));
    EnterPosts(s, a);
    ConsumedOrNot(s1, a, now);
    var s2 := Step(s1, Consume(a, now));
    SpendingIsServed(s2, a, access, next, now);
    FiveSteps(s, Enter(a), Consume(a, now), Issue(a, access, next, now), WriteAccess(a), WriteRefresh(a));
  }

  lemma SpendingIsServed(s: State, a: nat, access: string, next: string, now: int)
    requires At(s, a).Spending? && Fresh(s, next) && access != "" && At(s, a).rt !in s.rows && At(s, a).rt != next
    ensures
      var p, s' := At(s, a), Step(Step(Step(s, Issue(a, access, next, now)), WriteAccess(a)), WriteRefresh(a));
      && At(s', a) == Finished(Some(access)) && s'.access == Some(access) && s'.refresh == Some(next)
      && p.rt !in s'.rows && next in s'.rows && s'.rows[next].userId == p.row.userId
      && s'.exchanges == s.exchanges + [Exchange(p.failed, p.rt, next)]
  {
    Served(s, a, access, next, now);
    var p := At(s, a);
    var s1 := Step(s, Issue(a, access, next, now));
    assert At(s1, a) == Answered(p.rt, access, next) && s1.exchanges == s.exchanges + [Exchange(p.failed, p.rt, next)];
    var s2 := Step(s1, WriteAccess(a));
    assert At(s2, a) == AccessWritten(p.rt, access, next) && s2.access == Some(access);
    assert s2.exchanges == s1.exchanges;
  }

  lemma RunCons(s: State, e: Event, es: seq<Event>)
    ensures Run(s, [e] + es) == Run(Step(s, e), es)
    ensures SafeRun(s, [e] + es) <==> Safe(s, e) && SafeRun(Step(s, e), es)
  {
  }

  /** A request that never reached the server costs nothing: the lock is free again over the same live token. */
  lemma DroppedRequestCostsNothing(s: State, a: nat)
    requires Inv(s) && At(s, a).Posted?
    ensures
      var s' := Step(Step(s, Drop(a)), Leave(a));
      && At(s', a).Idle? && s'.holder == None && StoredIsLive(s')
      && s'.rows == s.rows && s'.refresh == s.refresh && s'.access == s.access
  {
    assert Critical(s.actors[a]) && s.holder == Some(a);
    var s1 := Step(s, Drop(a));
    LockIsReleased(s1, a);
  }

  /** A login stores its own pair, and the refresh token of that pair is live. */
  lemma SignInStoresALivePair(
      s: State, a: nat, access: string, next: string, userId: int, address: string, now: int)
    requires At(s, a).Idle? && Fresh(s, next) && access != ""
    ensures
      var s' := Step(Step(Step(s, SignIn(a, access, next, userId, address, now)), SignInAccess(a)), SignInRefresh(a));
      && At(s', a).Idle? && s'.access == Some(access) && s'.refresh == Some(next)
      && s'.rows == s.rows[next := NewRow(userId, address, s.role, now)]
  {
    var s1 := Step(s, SignIn(a, access, next, userId, address, now));
    assert At(s1, a) == SigningIn(access, next);
    var s2 := Step(s1, SignInAccess(a));
    assert At(s2, a) == SigningInAccessWritten(next) && s2.rows == s1.rows;
  }

  /** The token has no row, and no request that found it is being served. */
  ghost predicate Revoked(s: State, token: string) {
    && token in s.issued && token !in s.rows
    && forall a :: a in s.actors && s.actors[a].Spending? ==> s.actors[a].rt != token
  }

  lemma RevokedStep(s: State, e: Event, token: string)
    requires Revoked(s, token)
    ensures Revoked(Step(s, e), token)
    ensures s.exchanges <= Step(s, e).exchanges && |Step(s, e).exchanges| <= |s.exchanges| + 1
    ensures Step(s, e).exchanges != s.exchanges ==> Step(s, e).exchanges[|s.exchanges|].spent != token
  {
  }

  /** No exchange from number `n` on spent the token. */
  ghost predicate UnspentFrom(exchanges: seq<Exchange>, n: nat, token: string) {
    forall i :: n <= i < |exchanges| ==> exchanges[i].spent != token
  }

  lemma {:induction false} RevokedRun(s: State, es: seq<Event>, token: string, n: nat)
    requires Revoked(s, token) && UnspentFrom(s.exchanges, n, token)
    ensures UnspentFrom(Run(s, es).exchanges, n, token)
    decreases |es|
  {
    if es != [] {
      RevokedStep(s, es[0], token);
      RevokedRun(Step(s, es[0]), es[1..], token, n);
    }
  }

  /** Once a token is logged out, nothing that any tab does later exchanges it. */
  lemma LogoutRevokes(s: State, token: string, es: seq<Event>, i: nat)
    requires token in s.issued && forall a :: a in s.actors && s.actors[a].Spending? ==> s.actors[a].rt != token
    requires |s.exchanges| <= i < |Run(Step(s, Logout(token)), es).exchanges|
    ensures Run(Step(s, Logout(token)), es).exchanges[i].spent != token
  {
    RevokedRun(Step(s, Logout(token)), es, token, |s.exchanges|);
  }

  /** Nor, once a sweep ran after its expiry, a token that had expired. */
  lemma SweepRevokesExpired(s: State, token: string, now: int, es: seq<Event>, i: nat)
    requires token in s.issued && forall a :: a in s.actors && s.actors[a].Spending? ==> s.actors[a].rt != token
    requires token in s.rows ==> s.rows[token].expiresAt < now
    requires |s.exchanges| <= i < |Run(Step(s, Sweep(now)), es).exchanges|
    ensures Run(Step(s, Sweep(now)), es).exchanges[i].spent != token
  {
    RevokedRun(Step(s, Sweep(now)), es, token, |s.exchanges|);
  }

  lemma BothPost(s: State, rt: string) returns (s': State)
    requires !s.locks && s.actors == map[] && s.refused == 0
    requires s.refresh == Some(rt) && rt != ""
    ensures s' == Step(Step(Step(Step(s, Start(0, None)), Start(1, None)), Enter(0)), Enter(1))
    ensures At(s', 0) == At(s', 1) == Posted(None, rt)
    ensures s'.rows == s.rows && s'.role == s.role && s'.refused == 0
  {
    var s2 := Step(Step(s, Start(0, None)), Start(1, None));
    assert At(s2, 0) == At(s2, 1) == Waiting(None) && s2.refresh == s.refresh;
    s' := Step(Step(s2, Enter(0)), Enter(1));
  }

  lemma SecondIsRefused(s: State, rt: string, now: int)
    requires At(s, 0) == At(s, 1) == Posted(None, rt) && s.refused == 0
    requires Matches(s.rows, rt, s.role) && now == s.rows[rt].expiresAt
    ensures Safe(s, Consume(0, now)) && Safe(Step(s, Consume(0, now)), Consume(1, now))
    ensures Step(Step(s, Consume(0, now)), Consume(1, now)).refused == 1
  {
    var s' := Step(s, Consume(0, now));
    assert At(s', 1) == Posted(None, rt) && rt !in s'.rows;
  }

  /** Without cross-tab locks two tabs send the same token and the server refuses the second. */
  lemma WithoutLocksATokenIsSentTwice(s: State, rt: string)
    requires !s.locks && s.actors == map[] && s.refused == 0
    requires s.refresh == Some(rt) && rt != "" && Matches(s.rows, rt, s.role)
    ensures exists es :: SafeRun(s, es) && Run(s, es).refused == 1
  {
    var now := s.rows[rt].expiresAt;
    var s4 := BothPost(s, rt);
    SecondIsRefused(s4, rt, now);
    var es1 := [Consume(1, now)] + [];
    var es2 := [Consume(0, now)] + es1;
    var es3 := [Enter(1)] + es2;
    var es4 := [Enter(0)] + es3;
    var es5 := [Start(1, None)] + es4;
    RunCons(Step(s4, Consume(0, now)), Consume(1, now), []);
    RunCons(s4, Consume(0, now), es1);
    RunCons(Step(Step(Step(s, Start(0, None)), Start(1, None)), Enter(0)), Enter(1), es2);
    RunCons(Step(Step(s, Start(0, None)), Start(1, None)), Enter(0), es3);
    RunCons(Step(s, Start(0, None)), Start(1, None), es4);
    RunCons(s, Start(0, None), es5);
  }
}
