/** The cache service and the permission engine that reads through it. */
module PermissionEngineClass {
  import opened Optional
  import opened ExpiringKeys
  import opened Permissions

  class CacheService<V> {
    var connected: bool
    var keys: Keys<string, V>

    constructor ()
      ensures connected && keys == map[]
    {
      connected, keys := true, map[];
    }

    method Get(key: string, now: int) returns (value: Option<V>)
      ensures value == if connected then ExpiringKeys.Get(keys, key, now) else None
    {
      value := None;
      if connected {
        value := ExpiringKeys.Get(keys, key, now);
      }
    }

    /** A lifetime of 0 keeps the key for good. */
    method Set(key: string, value: V, ttlSeconds: nat, now: int)
      modifies this`keys
      ensures keys == if !connected then old(keys)
                      else if ttlSeconds > 0 then SetEx(old(keys), key, value, ttlSeconds, now)
                      else ExpiringKeys.Set(old(keys), key, value)
    {
      if !connected {
        return;
      }
      if ttlSeconds > 0 {
        keys := SetEx(keys, key, value, ttlSeconds, now);
      } else {
        keys := ExpiringKeys.Set(keys, key, value);
      }
    }

    method Del(key: string)
      modifies this`keys
      ensures keys == if connected then old(keys) - {key} else old(keys)
    {
      if connected {
        keys := keys - {key};
      }
    }

    /** Cache-aside; `loaded` is what the loader returns, if it is called and returns a value. */
    method Wrap(key: string, ttlSeconds: nat, loaded: Option<V>, tGet: int, tSet: int) returns (value: Option<V>)
      modifies this`keys
      ensures connected && Live(old(keys), key, tGet) ==>
                value == Some(old(keys)[key].value) && keys == old(keys)
      ensures !(connected && Live(old(keys), key, tGet)) ==> value == loaded
      ensures !(connected && Live(old(keys), key, tGet)) && (loaded.None? || !connected) ==> keys == old(keys)
      ensures connected && !Live(old(keys), key, tGet) && loaded.Some? ==>
                && (forall now :: ExpiringKeys.Get(keys, key, now)
                                  == if ttlSeconds == 0 || now <= tSet + 1000 * ttlSeconds then loaded else None)
                && (forall k | k != key :: (k in keys <==> k in old(keys)) && (k in keys ==> keys[k] == old(keys)[k]))
    {
      value := Get(key, tGet);
      if value.Some? {
        return;
      }
      value := loaded;
      if value.Some? {
        Set(key, value.value, ttlSeconds, tSet);
      }
    }
  }

  function PermissionKey(userId: string): string { "cache:user:" + userId + ":permissions" }

  /** No two users share an entry. */
  lemma {:induction false} PermissionKeysDiffer(a: string, b: string)
    ensures PermissionKey(a) == PermissionKey(b) <==> a == b
  {
    var n, k := |"cache:user:"|, |":permissions"|;
    assert PermissionKey(a)[n..|PermissionKey(a)| - k] == a;
    assert PermissionKey(b)[n..|PermissionKey(b)| - k] == b;
  }

  /** The entries of all other users are as they were. */
  ghost predicate OthersKept(was: Keys<string, seq<Permission>>, keys: Keys<string, seq<Permission>>, userId: string) {
    forall u, now | u != userId :: Get(keys, PermissionKey(u), now) == Get(was, PermissionKey(u), now)
  }

  class PermissionEngine {
    const cache: CacheService<seq<Permission>>

    constructor (cache: CacheService<seq<Permission>>)
      ensures this.cache == cache
    {
      this.cache := cache;
    }

    /** The cached list while it lives, otherwise role and grant less deny, cached from then on. */
    method ResolvePermissions(user: User, reply: RoleReply, tGet: int, tSet: int) returns (r: seq<Permission>)
      modifies cache`keys
      ensures var key := PermissionKey(user.id);
              if cache.connected && Live(old(cache.keys), key, tGet) then
                r == old(cache.keys)[key].value && cache.keys == old(cache.keys)
              else
                && Distinct(r) && Elements(r) == Effective(user, reply) && (reply.Failing? ==> r == [])
                && (cache.connected ==> forall now ::
                      Get(cache.keys, key, now) == if now <= tSet + 300_000 then Some(r) else None)
      ensures OthersKept(old(cache.keys), cache.keys, user.id)
    {
      forall u | u != user.id ensures PermissionKey(u) != PermissionKey(user.id) { PermissionKeysDiffer(u, user.id); }
      var fetched := Fetch(user, reply);
      var value := cache.Wrap(PermissionKey(user.id), 300, Some(fetched), tGet, tSet);
      r := value.value;
    }

    method InvalidateCache(userId: string)
      modifies cache`keys
      ensures cache.connected ==> forall now :: !Live(cache.keys, PermissionKey(userId), now)
      ensures OthersKept(old(cache.keys), cache.keys, userId)
    {
      forall u | u != userId ensures PermissionKey(u) != PermissionKey(userId) { PermissionKeysDiffer(u, userId); }
      cache.Del(PermissionKey(userId));
    }
  }
}
