/**
 * Single-use nonces for signing in.  They live in a shared store under a scope and a lower-cased
 * address, expire there, and are fetched and deleted in one atomic step.
 */
module SignIn {
  import opened Prelude
  import opened SiweMessage
  import Splitting

  datatype Scope = User | Admin

  datatype Stored = Stored(nonce: string, expiresAt: int)

  type Store = map<string, Stored>

  function ScopeName(scope: Scope): string {
    if scope.User? then "user" else "admin"
  }

  function NonceKey(x: Texts, address: string, scope: Scope): string {
    ScopeName(scope) + ":" + x.lower(address)
  }

  /** Different scopes or differently spelled addresses never share a key. */
  lemma KeysAreSeparate(x: Texts, a: string, s: Scope, b: string, t: Scope)
    ensures NonceKey(x, a, s) == NonceKey(x, b, t) <==> s == t && x.lower(a) == x.lower(b)
  {
    var k, l := NonceKey(x, a, s), NonceKey(x, b, t);
    assert k[0] == ScopeName(s)[0] && l[0] == ScopeName(t)[0];
    assert k[|ScopeName(s)| + 1..] == x.lower(a) && l[|ScopeName(t)| + 1..] == x.lower(b);
  }

  function AfterCreate(store: Store, key: string, nonce: string, now: int): Store {
    store[key := Stored(nonce, now + NONCE_TTL)]
  }

  /** What fetching and deleting a key at time `now` answers; an expired or empty nonce is none. */
  function Consumed(store: Store, key: string, now: int): Option<string> {
    if key in store && now < store[key].expiresAt && store[key].nonce != "" then Some(store[key].nonce) else None
  }

  function AfterConsume(store: Store, key: string): Store {
    store - {key}
  }

  /** A verification: consume first, then check the message, then the signature. */
  function Verify(x: Texts, store: Store, address: string, scope: Scope, message: string, signed: bool,
                  origin: Option<Origin>, now: int): Verdict {
    var nonce := Consumed(store, NonceKey(x, address, scope), now);
    if nonce.None? then Refused(NoNonce)
    else
      var v := CheckMessage(x, address, message, nonce.value, origin, now);
      if v.Verified? && !signed then Refused(BadSignature) else v
  }

  // ---------------------------------------------------------------------------------------------
  // The store and the two routes, as they update it.
  // ---------------------------------------------------------------------------------------------

  class NonceStore {
    const x: Texts
    var store: Store

    constructor (x: Texts)
      ensures this.x == x && store == map[]
    {
      this.x, store := x, map[];
    }

    /** `nonce` is 16 random bytes in hexadecimal. */
    method CreateNonce(address: string, scope: Scope, nonce: string, now: int)
      modifies this
      ensures store == AfterCreate(old(store), NonceKey(x, address, scope), nonce, now)
    {
      store := store[NonceKey(x, address, scope) := Stored(nonce, now + NONCE_TTL)];
    }

    method ConsumeNonce(address: string, scope: Scope, now: int) returns (nonce: Option<string>)
      modifies this
      ensures nonce == Consumed(old(store), NonceKey(x, address, scope), now)
      ensures store == AfterConsume(old(store), NonceKey(x, address, scope))
    {
      var key := NonceKey(x, address, scope);
      nonce := None;
      if key in store {
        var found := store[key];
        store := store - {key};
        if now < found.expiresAt && found.nonce != "" {
          nonce := Some(found.nonce);
        }
      }
    }

    method VerifySiweSignature(address: string, signed: bool, message: string, scope: Scope,
                               origin: Option<Origin>, now: int) returns (v: Verdict)
      modifies this
      ensures v == Verify(x, old(store), address, scope, message, signed, origin, now)
      ensures store == AfterConsume(old(store), NonceKey(x, address, scope))
    {
      var nonce := ConsumeNonce(address, scope, now);
      if nonce.None? {
        return Refused(NoNonce);
      }
      v := CheckMessage(x, address, message, nonce.value, origin, now);
      if v.Verified? && !signed {
        v := Refused(BadSignature);
      }
    }

    /** Asking for a message and handing it back signed before it expires signs in. */
    method SignInOnce(address: string, scope: Scope, nonce: string, origin: Origin, asked: int, answered: int)
      returns (first: Verdict, second: Verdict)
      requires Sound(x) && Ordinary(address) && SingleLine(nonce) && nonce != "" && CleanOrigin(origin)
      modifies this
      ensures first == Verified <==> answered < asked + NONCE_TTL
      ensures second == Refused(NoNonce)
    {
      CreateNonce(address, scope, nonce, asked);
      var message := BuildSiweMessage(x, address, nonce, origin, asked);
      PrintedMessagesFitOneRequest(x, address, nonce, origin, asked, address, nonce, Some(origin), answered);
      first := VerifySiweSignature(address, true, message, scope, Some(origin), answered);
      second := VerifySiweSignature(address, true, message, scope, Some(origin), answered);
    }
  }

  // ---------------------------------------------------------------------------------------------
  // All runs.
  // ---------------------------------------------------------------------------------------------

  datatype Event =
    | Create(address: string, scope: Scope, nonce: string, now: int)
    | Attempt(address: string, scope: Scope, message: string, signed: bool, origin: Option<Origin>, now: int)

  /** A nonce that a verification consumed, for which key, and whether it succeeded. */
  datatype Use = Use(nonce: string, key: string, success: bool)

  /** `issued` and `latest` remember which key a nonce was made for and the last nonce of a key; no code reads them. */
  datatype State = State(store: Store, uses: seq<Use>, issued: map<string, string>, latest: map<string, string>)

  function Step(x: Texts, s: State, e: Event): State {
    match e
    case Create(address, scope, nonce, now) =>
      var key := NonceKey(x, address, scope);
      s.(store := AfterCreate(s.store, key, nonce, now),
         issued := s.issued[nonce := key], latest := s.latest[key := nonce])
    case Attempt(address, scope, message, signed, origin, now) =>
      var key := NonceKey(x, address, scope);
      var nonce := Consumed(s.store, key, now);
      var success := Verify(x, s.store, address, scope, message, signed, origin, now).Verified?;
      s.(store := AfterConsume(s.store, key),
         uses := if nonce.Some? then s.uses + [Use(nonce.value, key, success)] else s.uses)
  }

  function Run(x: Texts, s: State, es: seq<Event>): State
    decreases |es|
  {
    if es == [] then s else Run(x, Step(x, s, es[0]), es[1..])
  }

  const OPENING := State(map[], [], map[], map[])

  /** Random nonces do not repeat. */
  ghost predicate FreshNonces(x: Texts, s: State, es: seq<Event>)
    decreases |es|
  {
    es != [] ==> (es[0].Create? ==> es[0].nonce !in s.issued) && FreshNonces(x, Step(x, s, es[0]), es[1..])
  }

  ghost predicate Inv(s: State) {
    && (forall k :: k in s.store ==>
          && s.store[k].nonce in s.issued && s.issued[s.store[k].nonce] == k
          && k in s.latest && s.latest[k] == s.store[k].nonce
          && forall i :: 0 <= i < |s.uses| ==> s.uses[i].nonce != s.store[k].nonce)
    && (forall i :: 0 <= i < |s.uses| ==> s.uses[i].nonce in s.issued && s.issued[s.uses[i].nonce] == s.uses[i].key)
    && (forall i, j :: 0 <= i < j < |s.uses| ==> s.uses[i].nonce != s.uses[j].nonce)
  }

  lemma StepKeeps(x: Texts, s: State, e: Event)
    requires Inv(s) && (e.Create? ==> e.nonce !in s.issued)
    ensures Inv(Step(x, s, e))
  {
  }

  lemma {:induction false} RunKeeps(x: Texts, s: State, es: seq<Event>)
    requires Inv(s) && FreshNonces(x, s, es)
    ensures Inv(Run(x, s, es))
    decreases |es|
  {
    if es != [] {
      StepKeeps(x, s, es[0]);
      RunKeeps(x, Step(x, s, es[0]), es[1..]);
    }
  }

  /**
   * Each nonce backs at most one verification, successful or not, and only one for the scope and
   * address it was made for.
   */
  lemma EachNonceIsUsedOnce(x: Texts, es: seq<Event>, i: nat, j: nat)
    requires FreshNonces(x, OPENING, es) && i < |Run(x, OPENING, es).uses| && j < |Run(x, OPENING, es).uses|
    ensures var s := Run(x, OPENING, es);
            && (s.uses[i].nonce == s.uses[j].nonce ==> i == j)
            && s.uses[i].nonce in s.issued && s.issued[s.uses[i].nonce] == s.uses[i].key
  {
    RunKeeps(x, OPENING, es);
  }

  /** A verification succeeds only on a message that carries the last nonce made for its scope and address. */
  lemma OnlyTheLatestNonceVerifies(
      x: Texts, es: seq<Event>, address: string, scope: Scope, message: string, signed: bool,
      origin: Option<Origin>, now: int)
    requires FreshNonces(x, OPENING, es)
    requires Verify(x, Run(x, OPENING, es).store, address, scope, message, signed, origin, now) == Verified
    ensures var s, key := Run(x, OPENING, es), NonceKey(x, address, scope);
            && signed && key in s.latest
            && Parse(Splitting.Split(message, '\n')).nonce == Some(s.latest[key])
            && forall i :: 0 <= i < |s.uses| ==> s.uses[i].nonce != s.latest[key]
  {
    RunKeeps(x, OPENING, es);
  }
}
