/**
 * The cache model the renderer talks to, as an abstract store: entries
 * keyed by widget id and cache id, a set of held locks, and the four calls
 * the render pipeline makes (`getCache`, `acquireLock`, `setCache`,
 * `releaseLock`). Every call is appended to a ghost log so that the order
 * of calls a render makes can be stated.
 */
module CacheStore {

  import opened Wrappers
  import opened PhpValues

  datatype CacheKey = CacheKey(widgetId: int, cacheId: string)

  /** One entry of a widget's required externals: a type (`css`, `js`, …) and its requirements. */
  datatype ExternalGroup = ExternalGroup(kind: string, requirements: seq<string>)

  /** The extra data saved with an entry: container data and required externals (empty means absent). */
  datatype ExtraData = ExtraData(containerData: seq<Entry>, requiredExternals: seq<ExternalGroup>)

  datatype CacheEntry = CacheEntry(html: string, time: int, extraData: ExtraData)

  /** The lock id a render carries: `null` (no lock taken), `false` (refused) or a token. */
  datatype LockId = NoLock | LockRefused | Held(key: CacheKey, token: nat)

  /** The store calls, as logged: read, lock attempt, write, release. */
  datatype Call =
    | Read(key: CacheKey)
    | Lock(key: CacheKey)
    | Write(key: CacheKey, lock: LockId)
    | Release(lock: LockId)

  class Store {
    var entries: map<CacheKey, CacheEntry>
    /** The held locks and the token each was granted with. */
    var locks: map<CacheKey, nat>
    var nextToken: nat
    ghost var calls: seq<Call>

    /** Every held lock was granted with a token below the next one. */
    ghost predicate Valid()
      reads this`locks, this`nextToken
    {
      forall k :: k in locks ==> locks[k] < nextToken
    }

    constructor ()
      ensures Valid() && entries == map[] && locks == map[] && calls == []
    {
      entries := map[];
      locks := map[];
      nextToken := 0;
      calls := [];
    }

    /** `getCache`: the stored entry, if any; nothing changes. */
    method GetCache(key: CacheKey) returns (cached: Option<CacheEntry>)
      modifies this`calls
      ensures cached == if key in entries then Some(entries[key]) else None
      ensures calls == old(calls) + [Read(key)]
    {
      cached := if key in entries then Some(entries[key]) else None;
      calls := calls + [Read(key)];
    }

    /** `acquireLock`: granted with a fresh token iff nobody holds the key, else `false`. */
    method AcquireLock(key: CacheKey) returns (lock: LockId)
      requires Valid()
      modifies this`locks, this`nextToken, this`calls
      ensures Valid()
      ensures key !in old(locks) ==> lock == Held(key, old(nextToken)) && locks == old(locks)[key := old(nextToken)]
      ensures key in old(locks) ==> lock == LockRefused && locks == old(locks)
      ensures nextToken >= old(nextToken)
      ensures calls == old(calls) + [Lock(key)]
    {
      if key in locks {
        lock := LockRefused;
      } else {
        lock := Held(key, nextToken);
        locks := locks[key := nextToken];
        nextToken := nextToken + 1;
      }
      calls := calls + [Lock(key)];
    }

    /** `setCache`: stores the html with the current time and its extra data. */
    method SetCache(key: CacheKey, html: string, extraData: ExtraData, lock: LockId, now: int)
      modifies this`entries, this`calls
      ensures entries == old(entries)[key := CacheEntry(html, now, extraData)]
      ensures calls == old(calls) + [Write(key, lock)]
    {
      entries := entries[key := CacheEntry(html, now, extraData)];
      calls := calls + [Write(key, lock)];
    }

    /** `releaseLock`: frees a held lock granted with that token; `null` and `false` change nothing. */
    method ReleaseLock(lock: LockId)
      requires Valid()
      modifies this`locks, this`calls
      ensures Valid()
      ensures lock.Held? && lock.key in old(locks) && old(locks)[lock.key] == lock.token ==>
        locks == old(locks) - {lock.key}
      ensures !(lock.Held? && lock.key in old(locks) && old(locks)[lock.key] == lock.token) ==> locks == old(locks)
      ensures calls == old(calls) + [Release(lock)]
    {
      if lock.Held? && lock.key in locks && locks[lock.key] == lock.token {
        locks := locks - {lock.key};
      }
      calls := calls + [Release(lock)];
    }
  }
}
