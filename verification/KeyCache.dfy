/**
 * The cache of derived encryption keys.  Keys are byte buffers on the heap: an evicted buffer is
 * overwritten with zeros, so the cache must never share a buffer between entries or overwrite the one it
 * hands out.  Key derivation and lower-casing are left open as functions.
 */
module KeyCache {
  import opened Prelude

  const KEY_CACHE_TTL := 300000
  const KEY_CACHE_MAX: nat := 1000

  type Byte = x: int | 0 <= x < 256

  datatype Entry = Entry(key: array<Byte>, expiresAt: int)

  datatype Failure = NoServerSecret | NoSalt

  datatype Derived = Ok(key: array<Byte>) | Error(reason: Failure)

  /** The part of the process environment that keys depend on; an empty text counts as not set. */
  datatype Env = Env(encryptionKey: string, jwtSecret: string, salt: string) {
    function Secret(): string {
      if encryptionKey != "" then encryptionKey else jwtSecret
    }

    /** What a key is derived from: each tag has a password and a salt of its own. */
    function Password(tag: string): string {
      Secret() + ":" + tag
    }

    function SaltOf(tag: string): string {
      salt + ":" + tag
    }

    /** Two tags never share a password or a salt. */
    lemma TagsDeriveApart(tag: string, other: string)
      ensures Password(tag) == Password(other) <==> tag == other
      ensures SaltOf(tag) == SaltOf(other) <==> tag == other
    {
      var secret, prefix := Secret() + ":", salt + ":";
      assert Password(tag)[|secret|..] == tag && Password(other)[|secret|..] == other;
      assert SaltOf(tag)[|prefix|..] == tag && SaltOf(other)[|prefix|..] == other;
    }

    /** The session secret counts only where no encryption key is set, and then it alone does. */
    lemma EncryptionKeyComesFirst(other: Env, tag: string)
      requires encryptionKey != "" || other.encryptionKey == ""
      ensures Password(tag) == other.Password(tag) <==>
              if encryptionKey != "" then
                encryptionKey == other.encryptionKey || (other.encryptionKey == "" && encryptionKey == other.jwtSecret)
              else jwtSecret == other.jwtSecret
    {
      var mine, others := Password(tag), other.Password(tag);
      if mine == others {
        assert |Secret()| == |other.Secret()|;
        assert mine[..|Secret()|] == Secret() && others[..|other.Secret()|] == other.Secret();
      }
    }
  }

  // ---------------------------------------------------------------------------------------------
  // Which tags are cached: the keys of an insertion-ordered map.
  // ---------------------------------------------------------------------------------------------

  /** The order after a derivation: a new tag goes last and, in a full cache, pushes out the first. */
  function NextOrder(order: seq<string>, tag: string): seq<string> {
    if tag in order then order
    else if |order| >= KEY_CACHE_MAX then order[1..] + [tag]
    else order + [tag]
  }

  function Orders(order: seq<string>, tags: seq<string>): seq<string>
    decreases |tags|
  {
    if tags == [] then order else Orders(NextOrder(order, tags[0]), tags[1..])
  }

  /** The cache never exceeds its cap, never lists a tag twice, and always ends up with the tag asked for. */
  lemma OrderIsBounded(order: seq<string>, tag: string)
    requires |order| <= KEY_CACHE_MAX && Distinct(order)
    ensures var order' := NextOrder(order, tag);
            |order'| <= KEY_CACHE_MAX && Distinct(order') && tag in order'
  {
  }

  /** How many of the requests ask for a tag that is new to a full cache. */
  function Evictions(order: seq<string>, tags: seq<string>): nat
    decreases |tags|
  {
    if tags == [] then 0
    else
      (if tags[0] !in order && |order| >= KEY_CACHE_MAX then 1 else 0) + Evictions(NextOrder(order, tags[0]), tags[1..])
  }

  lemma FrontDropped(order: seq<string>, tag: string, e: nat, m: nat)
    requires 1 <= e <= m <= |order|
    ensures (order[1..] + [tag])[e - 1..m - 1] == order[e..m]
  {
  }

  lemma FrontKept(order: seq<string>, tag: string, e: nat, m: nat)
    requires e <= m <= |order|
    ensures (order + [tag])[e..m] == order[e..m]
  {
  }

  /** The first `m` tags move up by one place per eviction; those moved past the front are gone. */
  lemma {:induction false} MarkedTagsMoveUp(order: seq<string>, m: nat, tags: seq<string>)
    requires m <= |order| <= KEY_CACHE_MAX
    ensures var e := Evictions(order, tags);
            e <= m ==> order[e..m] <= Orders(order, tags)
    decreases |tags|
  {
    if tags != [] && Evictions(order, tags) <= m {
      var order', e := NextOrder(order, tags[0]), Evictions(order, tags);
      if tags[0] !in order && |order| >= KEY_CACHE_MAX {
        MarkedTagsMoveUp(order', m - 1, tags[1..]);
        FrontDropped(order, tags[0], e, m);
      } else {
        MarkedTagsMoveUp(order', m, tags[1..]);
        FrontKept(order, tags[0], e, m);
      }
    }
  }

  /**
   * First in, first out: after any requests the tags at the front are the old ones less exactly as many
   * of the oldest as there were evictions, in their order.
   */
  lemma FirstInFirstOut(order: seq<string>, tags: seq<string>)
    requires |order| <= KEY_CACHE_MAX
    ensures var e := Evictions(order, tags);
            order[if e <= |order| then e else |order|..] <= Orders(order, tags)
  {
    MarkedTagsMoveUp(order, |order|, tags);
  }

  function Tags(order: seq<string>): set<string> {
    set t | t in order
  }

  lemma {:induction false} TagCount(order: seq<string>)
    requires Distinct(order)
    ensures |Tags(order)| == |order|
  {
    if order != [] {
      TagCount(order[1..]);
      assert order == [order[0]] + order[1..];
      assert Tags(order) == {order[0]} + Tags(order[1..]);
    }
  }

  /** Nothing is evicted if and only if the old tags and those asked for fit into the cache together. */
  lemma {:induction false} NothingLeavesIfAllFit(order: seq<string>, tags: seq<string>)
    requires |order| <= KEY_CACHE_MAX && Distinct(order)
    ensures Evictions(order, tags) == 0 <==> |Tags(order) + Tags(tags)| <= KEY_CACHE_MAX
    decreases |tags|
  {
    TagCount(order);
    if tags == [] {
      assert Tags(order) + Tags(tags) == Tags(order);
    } else {
      if tags[0] !in order && |order| >= KEY_CACHE_MAX {
        OneTooMany(order, tags);
      } else {
        OrderIsBounded(order, tags[0]);
        NothingLeavesIfAllFit(NextOrder(order, tags[0]), tags[1..]);
        SameTags(order, tags);
      }
    }
  }

  lemma SameTags(order: seq<string>, tags: seq<string>)
    requires tags != [] && (tags[0] in order || |order| < KEY_CACHE_MAX)
    ensures Tags(NextOrder(order, tags[0])) + Tags(tags[1..]) == Tags(order) + Tags(tags)
  {
    assert tags == [tags[0]] + tags[1..];
  }

  lemma OneTooMany(order: seq<string>, tags: seq<string>)
    requires Distinct(order) && tags != [] && tags[0] !in order
    ensures |Tags(order) + Tags(tags)| > |order|
  {
    TagCount(order);
    Contains(Tags(order) + {tags[0]}, Tags(order) + Tags(tags));
  }

  lemma Contains(small: set<string>, large: set<string>)
    requires small <= large
    ensures |small| <= |large|
  {
    var rest := large - small;
    assert large == small + rest;
  }

  /** Whatever is asked for, the cache stays within its cap and lists no tag twice. */
  lemma {:induction false} OrdersAreBounded(order: seq<string>, tags: seq<string>)
    requires |order| <= KEY_CACHE_MAX && Distinct(order)
    ensures |Orders(order, tags)| <= KEY_CACHE_MAX && Distinct(Orders(order, tags))
    decreases |tags|
  {
    if tags != [] {
      OrderIsBounded(order, tags[0]);
      OrdersAreBounded(NextOrder(order, tags[0]), tags[1..]);
    }
  }

  // ---------------------------------------------------------------------------------------------
  // The cache.
  // ---------------------------------------------------------------------------------------------

  class Cache {
    const env: Env
    const pbkdf2: (string, string) -> seq<Byte>
    const lower: string -> string
    var order: seq<string>
    var entries: map<string, Entry>

    /** What the key of a normalized tag is, computed afresh. */
    ghost function KeyOf(tag: string): seq<Byte> {
      pbkdf2(env.Password(tag), env.SaltOf(tag))
    }

    ghost function Buffers(): set<array<Byte>>
      reads this
    {
      set tag | tag in entries :: entries[tag].key
    }

    ghost predicate Valid()
      reads this, Buffers()
    {
      && Distinct(order) && |order| <= KEY_CACHE_MAX
      && (forall tag :: tag in order <==> tag in entries)
      && (forall tag :: tag in entries ==> entries[tag].key[..] == KeyOf(tag))
      && (forall t, u :: t in entries && u in entries && t != u ==> entries[t].key != entries[u].key)
    }

    constructor (env: Env, pbkdf2: (string, string) -> seq<Byte>, lower: string -> string)
      ensures Valid() && entries == map[] && order == []
      ensures this.env == env && this.pbkdf2 == pbkdf2 && this.lower == lower
    {
      this.env, this.pbkdf2, this.lower := env, pbkdf2, lower;
      order, entries := [], map[];
    }

    /** The tag whose buffer a derivation overwrites, if any. */
    ghost function Victim(tag: string): Option<string>
      reads this
    {
      if tag !in order && |order| >= KEY_CACHE_MAX then Some(order[0]) else None
    }

    ghost function Overwritten(tag: string): set<array<Byte>>
      reads this
    {
      if Victim(tag).Some? && Victim(tag).value in entries then {entries[Victim(tag).value].key} else {}
    }

    /**
     * Answers from a live entry, or derives the key and stores it.  `now` is the clock when the entry
     * is checked and `later` when the new one is stamped.
     */
    method DeriveKey(domainTag: string, now: int, later: int) returns (r: Derived)
      requires Valid()
      modifies this, Overwritten(lower(domainTag))
      ensures Valid() && fresh(Buffers() - old(Buffers()))
      ensures r.Ok? ==> r.key[..] == KeyOf(lower(domainTag))
      ensures r.Ok? ==> lower(domainTag) in entries && entries[lower(domainTag)].key == r.key
      ensures
        var tag := lower(domainTag);
        var hit := tag in old(entries) && now < old(entries)[tag].expiresAt;
        && (hit ==> r == Ok(old(entries)[tag].key) && entries == old(entries) && order == old(order))
        && (r.Error? <==> !hit && ((env.encryptionKey == "" && env.jwtSecret == "") || env.salt == ""))
        && (r.Error? ==> entries == old(entries) && order == old(order))
        && (!hit && r.Ok? ==>
              && fresh(r.key)
              && order == NextOrder(old(order), tag)
              && entries[tag].expiresAt == later + KEY_CACHE_TTL
              && forall t :: t in entries && t != tag ==> t in old(entries) && entries[t] == old(entries)[t])
      ensures forall t :: t in old(entries) && t !in entries ==> Zero(old(entries)[t].key)
    {
      var normalized := lower(domainTag);
      if normalized in entries && now < entries[normalized].expiresAt {
        return Ok(entries[normalized].key);
      }
      var serverSecret := env.Secret();
      if serverSecret == "" {
        return Error(NoServerSecret);
      }
      if env.salt == "" {
        return Error(NoSalt);
      }
      var bytes := pbkdf2(serverSecret + ":" + normalized, env.salt + ":" + normalized);
      var key := new Byte[|bytes|](i requires 0 <= i < |bytes| => bytes[i]);
      assert key[..] == bytes;
      Insert(normalized, key, later + KEY_CACHE_TTL);
      return Ok(key);
    }

    /** Makes room if the tag is new to a full cache, then stores the key under it. */
    method Insert(tag: string, key: array<Byte>, expiresAt: int)
      requires Valid() && key[..] == KeyOf(tag) && key !in Buffers()
      modifies this, Overwritten(tag)
      ensures Valid() && Buffers() <= old(Buffers()) + {key}
      ensures order == NextOrder(old(order), tag)
      ensures tag in entries && entries[tag] == Entry(key, expiresAt)
      ensures forall t :: t in entries && t != tag ==> t in old(entries) && entries[t] == old(entries)[t]
      ensures old(Victim(tag)).Some? ==>
                old(Victim(tag)).value in old(entries) && Zero(old(entries[Victim(tag).value].key))
    {
      if |order| >= KEY_CACHE_MAX && tag !in entries {
        EvictFirst();
      }
      Store(tag, key, expiresAt);
    }

    static ghost predicate Zero(buffer: array<Byte>)
      reads buffer
    {
      forall i :: 0 <= i < buffer.Length ==> buffer[i] == 0
    }

    method EvictFirst()
      requires Valid() && order != []
      modifies this, entries[order[0]].key
      ensures Valid() && Buffers() <= old(Buffers())
      ensures order == old(order)[1..] && entries == old(entries) - {old(order)[0]}
      ensures Zero(old(entries[order[0]].key))
    {
      var first := order[0];
      var evicted := entries[first].key;
      entries := entries - {first};
      order := order[1..];
      assert Valid() by {
        assert first !in order;
      }
      ZeroFill(evicted);
    }

    static method ZeroFill(buffer: array<Byte>)
      modifies buffer
      ensures Zero(buffer)
    {
      for i := 0 to buffer.Length
        invariant forall j :: 0 <= j < i ==> buffer[j] == 0
      {
        buffer[i] := 0;
      }
    }

    method Store(tag: string, key: array<Byte>, expiresAt: int)
      requires Valid() && (tag in order || |order| < KEY_CACHE_MAX)
      requires key[..] == KeyOf(tag) && forall t :: t in entries ==> entries[t].key != key
      modifies this
      ensures Valid() && Buffers() <= old(Buffers()) + {key}
      ensures order == (if tag in old(order) then old(order) else old(order) + [tag])
      ensures entries == old(entries)[tag := Entry(key, expiresAt)]
    {
      order := if tag in order then order else order + [tag];
      entries := entries[tag := Entry(key, expiresAt)];
    }
  }
}
