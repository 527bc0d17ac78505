/** The local map and the write-through store of one process, updated in place. */
module CacheStore {
  import opened Prelude
  import opened CacheInvalidation

  class LocalCache<T> {
    const maxSize: nat
    var store: map<string, T>

    constructor (maxSize: nat)
      requires maxSize >= 1
      ensures this.maxSize == maxSize && store == map[]
    {
      this.maxSize, store := maxSize, map[];
    }

    /** A new key in a full cache pushes out one other entry; which one is left open. */
    method Set(key: string, value: T) returns (evicted: Option<string>)
      requires maxSize >= 1 && |store| <= maxSize
      modifies this
      ensures |store| <= maxSize && key in store && store[key] == value
      ensures evicted.None? ==> store == old(store)[key := value]
      ensures evicted.Some? ==>
                && key !in old(store) && |old(store)| == maxSize && evicted.value in old(store)
                && store == (old(store) - {evicted.value})[key := value]
    {
      evicted := None;
      if key !in store && |store| == maxSize {
        var victim :| victim in store;
        evicted := Some(victim);
        store := store - {victim};
        assert |store| == |old(store)| - 1 by {
          assert store.Keys == old(store).Keys - {victim};
          assert |store.Keys| == |store| && |old(store).Keys| == |old(store)|;
        }
      }
      SetGrows(store, key, value);
      store := store[key := value];
    }

    method Del(key: string)
      modifies this
      ensures store == Without(old(store), Key(key))
    {
      store := store - {key};
    }

    method Clear()
      modifies this
      ensures store == Without(old(store), All)
    {
      store := map[];
    }

    /** Walks the keys and deletes those with the prefix; the result is how many there were. */
    method DelByPrefix(prefix: string) returns (deleted: nat)
      modifies this
      ensures store == Without(old(store), Prefix(prefix))
      ensures deleted == |old(store)| - |store|
      ensures deleted > 0 <==> exists k :: k in old(store) && Kills(Prefix(prefix), k)
      ensures forall rest :: prefix + rest !in store
    {
      deleted := DelMatching(Prefix(prefix));
      forall rest
        ensures prefix + rest !in store
      {
        KillsExactly(prefix + rest, prefix);
      }
    }

    method DelBySuffix(suffix: string) returns (deleted: nat)
      modifies this
      ensures store == Without(old(store), Suffix(suffix))
      ensures deleted == |old(store)| - |store|
      ensures deleted > 0 <==> exists k :: k in old(store) && Kills(Suffix(suffix), k)
      ensures forall front :: front + suffix !in store
    {
      deleted := DelMatching(Suffix(suffix));
      forall front
        ensures front + suffix !in store
      {
        KillsExactly(front + suffix, suffix);
      }
    }

    method DelMatching(inv: Invalidation) returns (deleted: nat)
      modifies this
      ensures store == Without(old(store), inv)
      ensures deleted == |old(store)| - |store|
      ensures deleted > 0 <==> exists k :: k in old(store) && Kills(inv, k)
    {
      deleted := 0;
      var todo := store.Keys;
      while todo != {}
        invariant todo <= store.Keys <= old(store).Keys
        invariant forall k :: k in store ==> store[k] == old(store)[k]
        invariant forall k :: k in old(store) && k !in todo ==> (k in store <==> !Kills(inv, k))
        invariant deleted + |store.Keys| == |old(store).Keys|
        invariant deleted > 0 <==> exists k :: k in old(store) && k !in store
        decreases todo
      {
        var key :| key in todo;
        if Kills(inv, key) {
          ghost var before := store.Keys;
          store := store - {key};
          assert store.Keys == before - {key};
          deleted := deleted + 1;
          assert key in old(store) && key !in store;
        }
        todo := todo - {key};
      }
      assert store == Without(old(store), inv);
      assert |store| == |store.Keys| && |old(store)| == |old(store).Keys|;
    }
  }

  lemma SetGrows<T>(m: map<string, T>, key: string, value: T)
    ensures |m[key := value]| == |m| + if key in m then 0 else 1
  {
  }

  /** One process's store; `sent` is what it has published on the invalidation channel. */
  class WriteThroughStore<T> {
    const local: LocalCache<T>
    var sent: seq<string>

    constructor (maxSize: nat)
      requires maxSize >= 1
      ensures local.store == map[] && local.maxSize == maxSize && sent == [] && fresh(local)
    {
      local := new LocalCache<T>(maxSize);
      sent := [];
    }

    /** A single key and a full clear are announced always, a prefix or suffix only if it deleted something. */
    method Invalidate(inv: Invalidation) returns (deleted: nat)
      modifies this`sent, local
      ensures local.store == Without(old(local.store), inv)
      ensures sent == old(sent) +
                if inv.Key? || inv.All? || exists k :: k in old(local.store) && Kills(inv, k) then [Encode(inv)] else []
    {
      deleted := 0;
      match inv
      case Key(key) =>
        local.Del(key);
        sent := sent + [key];
      case All =>
        local.Clear();
        sent := sent + ["*"];
      case Prefix(prefix) =>
        deleted := local.DelByPrefix(prefix);
        if deleted > 0 {
          sent := sent + ["__prefix:" + prefix];
        }
      case Suffix(suffix) =>
        deleted := local.DelBySuffix(suffix);
        if deleted > 0 {
          sent := sent + ["__suffix:" + suffix];
        }
    }

    /** A delivered message changes only the local map, by what its text says. */
    method OnMessage(text: string)
      modifies local
      ensures local.store == Without(old(local.store), Parse(text))
    {
      if text == "*" {
        local.Clear();
      } else if StartsWith(text, "__prefix:") {
        var _ := local.DelByPrefix(text[9..]);
      } else if StartsWith(text, "__suffix:") {
        var _ := local.DelBySuffix(text[9..]);
      } else {
        local.Del(text);
      }
    }
  }
}
