/**
 * The wallpaper service: device-type and image-name checks, the draw queue
 * "wallpaper:cache:<device>" refilled from the source list
 * "wallpaper:<device>" under a lease lock, the list edits that mirror
 * uploads and deletions, and the object paths and URLs built for storage.
 *
 * Every Redis command can fail; a fault flag per command says whether it
 * did, and a failed command changes nothing. Each operation that writes to
 * Redis is a method on the client whose new state is given by a function on
 * `Db`; the lemmas after each function state what the operation promises.
 */
module Wallpaper {
  import opened Wrappers
  import opened Text
  import opened Redis
  import opened Oss

  predicate ValidateDeviceType(deviceType: string) {
    deviceType == "pc" || deviceType == "mobile"
  }

  function SourceKey(deviceType: string): string { "wallpaper:" + deviceType }
  function CacheKey(deviceType: string): string { "wallpaper:cache:" + deviceType }
  function LockKey(deviceType: string): string { "lock:wallpaper:" + deviceType }
  function Channel(deviceType: string): string { "wallpaper_channel:" + deviceType }

  /** Lease of the refill lock, in milliseconds. */
  const LockLeaseMs := 5000

  /** For the two accepted device types the six list keys are pairwise distinct. */
  lemma DeviceKeysDistinct(d1: string, d2: string)
    requires ValidateDeviceType(d1) && ValidateDeviceType(d2)
    ensures SourceKey(d1) != CacheKey(d2) && LockKey(d1) != CacheKey(d2)
    ensures d1 != d2 ==> SourceKey(d1) != SourceKey(d2) && CacheKey(d1) != CacheKey(d2)
  {
  }

  /** Without the device check, the source key of "cache:pc" is the draw queue of "pc". */
  lemma UncheckedDeviceKeysCollide()
    ensures !ValidateDeviceType("cache:pc") && SourceKey("cache:pc") == CacheKey("pc")
  {
  }

  /** The draw queue and the lock never share a key with the source list of the same device. */
  lemma SameDeviceKeysDistinct(d: string)
    ensures SourceKey(d) != CacheKey(d) && CacheKey(d) != LockKey(d) && SourceKey(d) != LockKey(d)
  {
    assert |SourceKey(d)| < |CacheKey(d)|;
    assert CacheKey(d)[0] == 'w' && LockKey(d)[0] == 'l' && SourceKey(d)[0] == 'w';
  }

  const ImageExtensions: set<string> := {".jpg", ".jpeg", ".png", ".gif", ".bmp", ".webp"}

  predicate IsImageFile(filename: string) {
    ToLower(Ext(filename)) in ImageExtensions
  }

  /** Each accepted extension is a dot followed by three or four lower-case letters. */
  lemma ImageExtensionShape(x: string)
    requires x in ImageExtensions
    ensures 4 <= |x| <= 5 && x[0] == '.'
    ensures forall i :: 1 <= i < |x| ==> 'a' <= x[i] <= 'z'
    ensures '.' !in x[1..] && '/' !in x
  {
  }

  /** A name with no '.' has no extension, so it is never an image. */
  lemma ImageNameHasDot(filename: string)
    requires IsImageFile(filename)
    ensures '.' in filename
  {
    var e := Ext(filename);
    ImageExtensionShape(ToLower(e));
    ExtShape(filename);
    assert e != [];
    assert filename[|filename| - |e|] == e[0];
  }

  /** The check ignores case: a name and its lower-cased form are judged alike. */
  lemma IsImageFileIgnoresCase(filename: string)
    ensures IsImageFile(ToLower(filename)) == IsImageFile(filename)
  {
    ExtOfLower(filename);
    ToLowerIdempotent(Ext(filename));
  }

  /** Any name ending in one of the six extensions, in any case, is an image. */
  lemma ImageByExtension(stem: string, ext: string)
    requires ToLower(ext) in ImageExtensions
    ensures IsImageFile(stem + ext)
  {
    var low := ToLower(ext);
    ImageExtensionShape(low);
    assert ext[0] == '.' && '.' !in ext[1..] && '/' !in ext by {
      forall i | 0 <= i < |ext| ensures LowerChar(ext[i]) == low[i] { }
    }
    ExtOfSuffix(stem, ext);
  }

  /** The only extension that counts is the one after the last dot of the last path element. */
  lemma ImageJudgedByLastExtension(filename: string)
    requires IsImageFile(filename)
    ensures var e := Ext(filename);
      && |e| <= |filename| && filename == filename[..|filename| - |e|] + e
      && e[0] == '.' && '.' !in e[1..] && '/' !in e
      && ToLower(e) in ImageExtensions
  {
    var e := Ext(filename);
    ImageExtensionShape(ToLower(e));
    ExtShape(filename);
    assert e != [];
  }

  datatype Failure =
    | StoreError      // a Redis command failed
    | NoWallpapers    // "no wallpapers available": the source list is empty
    | RefillFailed    // "failed to refill cache": the transaction failed
    | WaitFailed      // subscribe/receive of the refill signal failed or timed out
    | CacheEmpty      // "no wallpapers available in cache": BLPOP timed out
    | ListingFailed   // an object-storage listing request failed

  /** stringSliceToInterfaceSlice: copies the names into a fresh argument array. */
  method StringSliceToInterfaceSlice(strs: seq<string>) returns (result: array<string>)
    ensures fresh(result) && result[..] == strs
  {
    result := new string[|strs|];
    for i := 0 to |strs|
      invariant result[..i] == strs[..i]
    {
      result[i] := strs[i];
    }
  }

  // ---------------------------------------------------------------------
  // RefillCache

  /** Read the whole source list, then in one transaction DEL the queue and LPUSH every name. */
  function Refill(db: Db, keyOriginal: string, keyCache: string, lrangeFails: bool, execFails: bool): (Outcome<Failure>, Db)
  {
    if lrangeFails then (Fail(StoreError), db)
    else if db.List(keyOriginal) == [] then (Fail(NoWallpapers), db)
    else if execFails then (Fail(RefillFailed), db)
    else (Pass, db.Del({keyCache}).LPush(keyCache, db.List(keyOriginal)))
  }

  method RefillCache(client: Client, keyOriginal: string, keyCache: string, lrangeFails: bool, execFails: bool)
    returns (r: Outcome<Failure>)
    requires client.Valid()
    modifies client
    ensures client.Valid()
    ensures (r, client.db) == Refill(old(client.db), keyOriginal, keyCache, lrangeFails, execFails)
  {
    if lrangeFails {
      return Fail(StoreError);
    }
    var wallpapers := client.LRange(keyOriginal);
    if |wallpapers| == 0 {
      return Fail(NoWallpapers);
    }
    // MULTI; DEL; LPUSH; EXEC -- a failed EXEC applies neither command.
    if execFails {
      return Fail(RefillFailed);
    }
    var args := StringSliceToInterfaceSlice(wallpapers);
    client.Del({keyCache});
    var _ := client.LPush(keyCache, args[..]);
    r := Pass;
  }

  /** A failed refill, for whatever reason, leaves the store as it was. */
  lemma RefillFailureChangesNothing(db: Db, keyOriginal: string, keyCache: string, lrangeFails: bool, execFails: bool)
    ensures var (r, db') := Refill(db, keyOriginal, keyCache, lrangeFails, execFails);
      r.Fail? ==> db' == db
    ensures var (r, _) := Refill(db, keyOriginal, keyCache, lrangeFails, execFails);
      (!lrangeFails && db.List(keyOriginal) == []) ==> r == Fail(NoWallpapers)
  {
  }

  /**
   * A successful refill replaces the queue wholesale by the source names in
   * reverse order; the source list, every other key and the leases stay.
   */
  lemma RefillReplacesQueue(db: Db, keyOriginal: string, keyCache: string)
    requires keyOriginal != keyCache && db.List(keyOriginal) != []
    ensures var (r, db') := Refill(db, keyOriginal, keyCache, false, false);
      && r == Pass
      && db'.List(keyCache) == Reverse(db.List(keyOriginal))
      && (forall k :: k != keyCache ==> db'.List(k) == db.List(k))
      && db'.leases == db.leases - {keyCache} && db'.published == db.published
  {
    var d1 := db.Del({keyCache});
    assert d1.List(keyCache) == [];
    PushAllIsReversedPrefix(db.List(keyOriginal), []);
  }

  // ---------------------------------------------------------------------
  // GetRandomWallpaper

  /** Which commands of one GetRandomWallpaper call fail. */
  datatype DrawFaults = DrawFaults(
    existsFails: bool, setNXFails: bool, lrangeFails: bool, execFails: bool,
    receiveFails: bool, popFails: bool, publishFails: bool, unlockFails: bool)

  const NoDrawFaults := DrawFaults(false, false, false, false, false, false, false, false)

  /** BLPOP with a timeout: the head, or CacheEmpty when the wait expires on an empty queue. */
  function PopFrom(db: Db, keyCache: string, popFails: bool): (Result<string, Failure>, Db) {
    if popFails then (Err(StoreError), db)
    else if db.List(keyCache) == [] then (Err(CacheEmpty), db)
    else (Ok(db.List(keyCache)[0]), db.LPop(keyCache))
  }

  /**
   * One GetRandomWallpaper call: EXISTS on the queue; when it is empty, SET
   * NX of the lock with `token` -- on success refill under the lock, and
   * otherwise wait for the signal -- and finally BLPOP the queue.
   *
   * A waiter receives "done" only once the lock holder has refilled the
   * queue and published; it then pops from the store as the holder left it.
   * Over an empty source list the holder publishes nothing, so the wait
   * runs out; `receiveFails` stands for every other failed or expired wait.
   */
  function Draw(db: Db, deviceType: string, token: string, now: int, f: DrawFaults): (Result<string, Failure>, Db)
  {
    var keyCache := CacheKey(deviceType);
    if f.existsFails then (Err(StoreError), db)
    else if db.Exists(keyCache) then PopFrom(db, keyCache, f.popFails)
    else if f.setNXFails then (Err(StoreError), db)
    else if db.Held(LockKey(deviceType), now) then
      if f.receiveFails || db.List(SourceKey(deviceType)) == [] then (Err(WaitFailed), db)
      else PopFrom(HolderRefill(db, deviceType), keyCache, f.popFails)
    else LockedDraw(db, deviceType, token, now, f)
  }

  /**
   * What a waiter finds once "done" arrives: the lock holder's successful
   * refill of the queue from the source list, then its message on the channel.
   */
  function HolderRefill(db: Db, deviceType: string): Db {
    Refill(db, SourceKey(deviceType), CacheKey(deviceType), false, false).1.Publish(Channel(deviceType), "done")
  }

  /** The lock holder's path: take the lease, refill and pop, then the deferred unlock script. */
  function LockedDraw(db: Db, deviceType: string, token: string, now: int, f: DrawFaults): (Result<string, Failure>, Db)
  {
    var lockKey := LockKey(deviceType);
    var (r, db') := RefillAndPop(db.SetNX(lockKey, token, now, LockLeaseMs), deviceType, f);
    (r, if f.unlockFails then db' else db'.Unlock(lockKey, token, now))
  }

  /** Refill the queue; only when that succeeded, publish "done" and pop. */
  function RefillAndPop(db: Db, deviceType: string, f: DrawFaults): (Result<string, Failure>, Db)
  {
    var keyCache := CacheKey(deviceType);
    var (refilled, db1) := Refill(db, SourceKey(deviceType), keyCache, f.lrangeFails, f.execFails);
    if refilled.Fail? then (Err(refilled.error), db1)
    else PopFrom(if f.publishFails then db1 else db1.Publish(Channel(deviceType), "done"), keyCache, f.popFails)
  }

  method Pop(client: Client, keyCache: string, popFails: bool) returns (r: Result<string, Failure>)
    requires client.Valid()
    modifies client
    ensures client.Valid()
    ensures (r, client.db) == PopFrom(old(client.db), keyCache, popFails)
  {
    if popFails {
      return Err(StoreError);
    }
    var popped := client.BLPop(keyCache);
    match popped
    case None => r := Err(CacheEmpty);
    case Some(filename) => r := Ok(filename);
  }

  /**
   * The subscribe and ReceiveMessage of a waiter: while it waits, the lock
   * holder refills the queue and publishes "done", which ends the wait; over
   * an empty source list nothing is published and the wait runs out.
   */
  method AwaitRefill(client: Client, deviceType: string) returns (received: bool)
    requires client.Valid()
    modifies client
    ensures client.Valid()
    ensures received <==> old(client.db).List(SourceKey(deviceType)) != []
    ensures client.db == if received then HolderRefill(old(client.db), deviceType) else old(client.db)
  {
    var names := client.LRange(SourceKey(deviceType));
    if |names| == 0 {
      return false;
    }
    // the lock holder's transaction and message, seen from the waiter
    var _ := RefillCache(client, SourceKey(deviceType), CacheKey(deviceType), false, false);
    client.Publish(Channel(deviceType), "done");
    received := true;
  }

  method GetRandomWallpaper(client: Client, deviceType: string, token: string, now: int, f: DrawFaults)
    returns (r: Result<string, Failure>)
    requires client.Valid()
    modifies client
    ensures client.Valid()
    ensures (r, client.db) == Draw(old(client.db), deviceType, token, now, f)
  {
    var keyOriginal := SourceKey(deviceType);
    var keyCache := CacheKey(deviceType);
    var lockKey := LockKey(deviceType);
    var channel := Channel(deviceType);

    if f.existsFails {
      return Err(StoreError);
    }
    var cacheExists := client.Exists(keyCache);
    if cacheExists == 0 {
      if f.setNXFails {
        return Err(StoreError);
      }
      ghost var before := client.db;
      var lockAcquired := client.SetNX(lockKey, token, now, LockLeaseMs);
      if lockAcquired {
        ghost var locked := client.db;
        var refilled := RefillCache(client, keyOriginal, keyCache, f.lrangeFails, f.execFails);
        if refilled.Fail? {
          r := Err(refilled.error);
        } else {
          if !f.publishFails {
            client.Publish(channel, "done");
          }
          r := Pop(client, keyCache, f.popFails);
        }
        assert (r, client.db) == RefillAndPop(locked, deviceType, f);
        // the deferred unlockScript.Run; its reply is ignored
        if !f.unlockFails {
          var _ := client.RunUnlockScript(lockKey, token, now);
        }
        assert (r, client.db) == LockedDraw(before, deviceType, token, now, f);
        return;
      }
      if f.receiveFails {
        return Err(WaitFailed);
      }
      var received := AwaitRefill(client, deviceType);
      if !received {
        return Err(WaitFailed);
      }
    }
    r := Pop(client, keyCache, f.popFails);
  }

  /**
   * With a non-empty queue no lock is taken and nothing is refilled: the
   * head is returned and the queue loses exactly that element.
   */
  lemma DrawFromFilledQueue(db: Db, deviceType: string, token: string, now: int, f: DrawFaults)
    requires db.Valid() && db.Exists(CacheKey(deviceType)) && !f.existsFails && !f.popFails
    ensures var (r, db') := Draw(db, deviceType, token, now, f);
      var q := db.List(CacheKey(deviceType));
      && r == Ok(q[0])
      && db'.List(CacheKey(deviceType)) == q[1..]
      && (forall k :: k != CacheKey(deviceType) ==> db'.List(k) == db.List(k))
      && db'.leases == db.leases && db'.published == db.published
  {
  }

  /**
   * On the refill path with a non-empty source the item returned is the last
   * source name, and the queue keeps every other source name exactly once.
   */
  lemma DrawAfterRefillServesSource(db: Db, deviceType: string, token: string, now: int, f: DrawFaults)
    requires db.Valid() && !db.Exists(CacheKey(deviceType)) && !db.Held(LockKey(deviceType), now)
    requires !f.existsFails && !f.setNXFails && !f.lrangeFails && !f.execFails && !f.popFails
    requires db.List(SourceKey(deviceType)) != []
    ensures var (r, db') := Draw(db, deviceType, token, now, f);
      var src := db.List(SourceKey(deviceType));
      && r.Ok? && r.value == src[|src| - 1] && r.value in src
      && multiset(db'.List(CacheKey(deviceType))) + multiset{r.value} == multiset(src)
      && db'.List(SourceKey(deviceType)) == src
  {
    var keyCache, keySource, lockKey := CacheKey(deviceType), SourceKey(deviceType), LockKey(deviceType);
    var src := db.List(keySource);
    SameDeviceKeysDistinct(deviceType);
    var locked := db.SetNX(lockKey, token, now, LockLeaseMs);
    assert locked.List(keySource) == src;
    RefillReplacesQueue(locked, keySource, keyCache);
    var (_, db1) := Refill(locked, keySource, keyCache, false, false);
    var db2 := if f.publishFails then db1 else db1.Publish(Channel(deviceType), "done");
    assert db2.List(keyCache) == Reverse(src) && db2.List(keySource) == src;
    ReverseSameElements(src);
    var q := Reverse(src);
    assert q == [q[0]] + q[1..];
    var (r, db3) := PopFrom(db2, keyCache, false);
    assert r == Ok(q[0]) && db3.List(keyCache) == q[1..] && db3.List(keySource) == src;
    assert Draw(db, deviceType, token, now, f) == LockedDraw(db, deviceType, token, now, f);
  }

  /** An empty source list is reported as NoWallpapers, the queue stays empty and the lock is released. */
  lemma DrawFromEmptySource(db: Db, deviceType: string, token: string, now: int, f: DrawFaults)
    requires !db.Exists(CacheKey(deviceType)) && !db.Held(LockKey(deviceType), now)
    requires !f.existsFails && !f.setNXFails && !f.lrangeFails && !f.unlockFails
    requires db.List(SourceKey(deviceType)) == []
    ensures var (r, db') := Draw(db, deviceType, token, now, f);
      && r == Err(NoWallpapers)
      && db'.List(CacheKey(deviceType)) == []
      && !db'.Held(LockKey(deviceType), now)
      && db'.published == db.published
  {
    SameDeviceKeysDistinct(deviceType);
  }

  /**
   * "done" appears only after a successful refill of a non-empty source, on
   * the device's own channel and once: by this caller when it took the lock,
   * or by the lock holder while this caller waited.
   */
  lemma DoneOnlyAfterRefill(db: Db, deviceType: string, token: string, now: int, f: DrawFaults)
    ensures var (r, db') := Draw(db, deviceType, token, now, f);
      db'.published != db.published ==>
        && !f.existsFails && !db.Exists(CacheKey(deviceType)) && !f.setNXFails
        && db.List(SourceKey(deviceType)) != []
        && (db.Held(LockKey(deviceType), now) ==> !f.receiveFails)
        && (!db.Held(LockKey(deviceType), now) ==> !f.lrangeFails && !f.execFails)
        && db'.published == db.published + [Message(Channel(deviceType), "done")]
  {
    SameDeviceKeysDistinct(deviceType);
  }

  /** Everything the lock holder does between SET NX and the unlock script stays on the device's queue. */
  lemma RefillAndPopFrame(db: Db, deviceType: string, f: DrawFaults)
    ensures var (_, db') := RefillAndPop(db, deviceType, f);
      forall k :: k != CacheKey(deviceType) ==> db'.SameAt(db, k)
  {
    var keyCache := CacheKey(deviceType);
    var (refilled, db1) := Refill(db, SourceKey(deviceType), keyCache, f.lrangeFails, f.execFails);
    assert forall k :: k != keyCache ==> db1.SameAt(db, k);
  }

  /**
   * A caller that took the lock releases it with its own token whatever the
   * refill did; a lease held by another token is never touched.
   */
  lemma DrawLockDiscipline(db: Db, deviceType: string, token: string, now: int, f: DrawFaults)
    ensures var (r, db') := Draw(db, deviceType, token, now, f);
      var lockKey := LockKey(deviceType);
      && (db.Held(lockKey, now) ==> db'.LeaseAt(lockKey) == db.LeaseAt(lockKey))
      && (!f.existsFails && !db.Exists(CacheKey(deviceType)) && !f.setNXFails && !db.Held(lockKey, now) ==>
            if f.unlockFails then db'.LeaseAt(lockKey) == Some(Lease(token, now + LockLeaseMs))
            else db'.LeaseAt(lockKey) == None)
  {
    var lockKey := LockKey(deviceType);
    SameDeviceKeysDistinct(deviceType);
    if !f.existsFails && !db.Exists(CacheKey(deviceType)) && !f.setNXFails && !db.Held(lockKey, now) {
      var locked := db.SetNX(lockKey, token, now, LockLeaseMs);
      RefillAndPopFrame(locked, deviceType, f);
      var (_, db2) := RefillAndPop(locked, deviceType, f);
      assert db2.SameAt(locked, lockKey);
    }
  }

  /** A call for one device changes nothing stored outside its own queue and lock. */
  lemma DrawStaysInPartition(db: Db, deviceType: string, token: string, now: int, f: DrawFaults)
    ensures var (r, db') := Draw(db, deviceType, token, now, f);
      forall k :: k != CacheKey(deviceType) && k != LockKey(deviceType) ==> db'.SameAt(db, k)
  {
    var lockKey, keyCache := LockKey(deviceType), CacheKey(deviceType);
    var (r, db') := Draw(db, deviceType, token, now, f);
    if !f.existsFails && !db.Exists(keyCache) && !f.setNXFails && !db.Held(lockKey, now) {
      var locked := db.SetNX(lockKey, token, now, LockLeaseMs);
      RefillAndPopFrame(locked, deviceType, f);
      var (r2, db2) := RefillAndPop(locked, deviceType, f);
      assert db' == if f.unlockFails then db2 else db2.Unlock(lockKey, token, now);
      forall k | k != keyCache && k != lockKey
        ensures db'.SameAt(db, k)
      {
        assert db2.SameAt(locked, k);
        assert locked.SameAt(db, k);
      }
    } else if !f.existsFails && !db.Exists(keyCache) && !f.setNXFails && !f.receiveFails
      && db.List(SourceKey(deviceType)) != [] {
      HolderRefillFrame(db, deviceType);
    } else {
      assert db' == db || db' == PopFrom(db, keyCache, f.popFails).1;
    }
  }

  /** The holder's refill, as a waiter sees it, touches no key but the device's queue. */
  lemma HolderRefillFrame(db: Db, deviceType: string)
    requires db.List(SourceKey(deviceType)) != []
    ensures var db' := HolderRefill(db, deviceType);
      && db'.List(CacheKey(deviceType)) == Reverse(db.List(SourceKey(deviceType)))
      && (forall k :: k != CacheKey(deviceType) ==> db'.SameAt(db, k))
      && db'.published == db.published + [Message(Channel(deviceType), "done")]
  {
    SameDeviceKeysDistinct(deviceType);
    RefillReplacesQueue(db, SourceKey(deviceType), CacheKey(deviceType));
  }

  /**
   * A waiter released by "done" is served the head of the queue the lock
   * holder rebuilt: the last source name; the rest of the reversed source
   * stays queued and nothing outside the device's queue changes.
   */
  lemma WaiterServedFromRefill(db: Db, deviceType: string, token: string, now: int, f: DrawFaults)
    requires !db.Exists(CacheKey(deviceType)) && db.Held(LockKey(deviceType), now)
    requires !f.existsFails && !f.setNXFails && !f.receiveFails && !f.popFails
    requires db.List(SourceKey(deviceType)) != []
    ensures var (r, db') := Draw(db, deviceType, token, now, f);
      var src := db.List(SourceKey(deviceType));
      && r == Ok(Reverse(src)[0]) && r.value == src[|src| - 1]
      && db'.List(CacheKey(deviceType)) == Reverse(src)[1..]
      && (forall k :: k != CacheKey(deviceType) ==> db'.SameAt(db, k))
      && db'.published == db.published + [Message(Channel(deviceType), "done")]
  {
    var src := db.List(SourceKey(deviceType));
    HolderRefillFrame(db, deviceType);
    ReverseSameElements(src);
    var held := HolderRefill(db, deviceType);
    var res := PopFrom(held, CacheKey(deviceType), false);
    assert res.0 == Ok(Reverse(src)[0]);
    assert forall k :: k != CacheKey(deviceType) ==> res.1.SameAt(held, k);
  }

  /**
   * A waiter ends with WaitFailed, at once and with no change, exactly when
   * its receive fails or the source is empty (nobody publishes "done"):
   * there is no retry.
   */
  lemma WaiterDoesNotRetry(db: Db, deviceType: string, token: string, now: int, f: DrawFaults)
    requires !f.existsFails && !db.Exists(CacheKey(deviceType)) && !f.setNXFails
    requires db.Held(LockKey(deviceType), now)
    ensures Draw(db, deviceType, token, now, f) == (Err(WaitFailed), db)
      <==> f.receiveFails || db.List(SourceKey(deviceType)) == []
  {
  }

  // ---------------------------------------------------------------------
  // Mirroring uploads and deletions into the two lists

  /** LREM key 0 name, then LPUSH key name. */
  function AddTo(db: Db, key: string, filename: string, lremFails: bool, lpushFails: bool): (Outcome<Failure>, Db)
  {
    if lremFails then (Fail(StoreError), db)
    else
      var removed := db.LRem(key, filename);
      if lpushFails then (Fail(StoreError), removed)
      else (Pass, removed.LPush(key, [filename]))
  }

  method AddToList(client: Client, key: string, filename: string, lremFails: bool, lpushFails: bool)
    returns (r: Outcome<Failure>)
    requires client.Valid()
    modifies client
    ensures client.Valid()
    ensures (r, client.db) == AddTo(old(client.db), key, filename, lremFails, lpushFails)
  {
    if lremFails {
      return Fail(StoreError);
    }
    var _ := client.LRem(key, filename);
    if lpushFails {
      return Fail(StoreError);
    }
    var _ := client.LPush(key, [filename]);
    r := Pass;
  }

  method AddToWallpaperCache(client: Client, filename: string, deviceType: string, lremFails: bool, lpushFails: bool)
    returns (r: Outcome<Failure>)
    requires client.Valid()
    modifies client
    ensures client.Valid()
    ensures (r, client.db) == AddTo(old(client.db), SourceKey(deviceType), filename, lremFails, lpushFails)
  {
    r := AddToList(client, SourceKey(deviceType), filename, lremFails, lpushFails);
  }

  method AddToRandomWallpaperCache(client: Client, filename: string, deviceType: string, lremFails: bool, lpushFails: bool)
    returns (r: Outcome<Failure>)
    requires client.Valid()
    modifies client
    ensures client.Valid()
    ensures (r, client.db) == AddTo(old(client.db), CacheKey(deviceType), filename, lremFails, lpushFails)
  {
    r := AddToList(client, CacheKey(deviceType), filename, lremFails, lpushFails);
  }

  /**
   * After an add the list holds exactly one copy of the name, at the head,
   * and every other name as often and in the same order as before; no other
   * key changes.
   */
  lemma AddLeavesOneCopyAtHead(db: Db, key: string, filename: string)
    ensures var (r, db') := AddTo(db, key, filename, false, false);
      var before := db.List(key);
      && r == Pass
      && db'.List(key) == [filename] + RemoveAll(before, filename)
      && multiset(db'.List(key)) == multiset(before)[filename := 1]
      && (forall k :: k != key ==> db'.List(k) == db.List(k))
      && db'.leases == db.leases
  {
    var before := db.List(key);
    RemoveAllCounts(before, filename);
    var mid := db.LRem(key, filename);
    assert mid.List(key) == RemoveAll(before, filename);
    assert PushAll([filename], mid.List(key)) == [filename] + mid.List(key);
  }

  /** When the LPUSH of an add fails, the name has been removed and is absent from the list. */
  lemma AddHalfDoneDropsName(db: Db, key: string, filename: string)
    ensures var (r, db') := AddTo(db, key, filename, false, true);
      r.Fail? && filename !in db'.List(key) && db'.List(key) == RemoveAll(db.List(key), filename)
  {
  }

  /** LREM key 0 name. */
  function RemoveFrom(db: Db, key: string, filename: string, lremFails: bool): (Outcome<Failure>, Db)
  {
    if lremFails then (Fail(StoreError), db) else (Pass, db.LRem(key, filename))
  }

  method RemoveFromList(client: Client, key: string, filename: string, lremFails: bool)
    returns (r: Outcome<Failure>)
    requires client.Valid()
    modifies client
    ensures client.Valid()
    ensures (r, client.db) == RemoveFrom(old(client.db), key, filename, lremFails)
  {
    if lremFails {
      return Fail(StoreError);
    }
    var _ := client.LRem(key, filename);
    r := Pass;
  }

  method RemoveFromWallpaperCache(client: Client, filename: string, deviceType: string, lremFails: bool)
    returns (r: Outcome<Failure>)
    requires client.Valid()
    modifies client
    ensures client.Valid()
    ensures (r, client.db) == RemoveFrom(old(client.db), SourceKey(deviceType), filename, lremFails)
  {
    r := RemoveFromList(client, SourceKey(deviceType), filename, lremFails);
  }

  method RemoveFromRandomWallpaperCache(client: Client, filename: string, deviceType: string, lremFails: bool)
    returns (r: Outcome<Failure>)
    requires client.Valid()
    modifies client
    ensures client.Valid()
    ensures (r, client.db) == RemoveFrom(old(client.db), CacheKey(deviceType), filename, lremFails)
  {
    r := RemoveFromList(client, CacheKey(deviceType), filename, lremFails);
  }

  /**
   * A removal deletes every copy of the name (although the source's comment
   * says "at most 1") and keeps every other name, in order; no other key changes.
   */
  lemma RemoveDropsEveryCopy(db: Db, key: string, filename: string)
    ensures var (r, db') := RemoveFrom(db, key, filename, false);
      var before := db.List(key);
      && r == Pass
      && filename !in db'.List(key)
      && multiset(db'.List(key)) == multiset(before)[filename := 0]
      && (forall a, b :: before == a + b ==> db'.List(key) == RemoveAll(a, filename) + RemoveAll(b, filename))
      && (forall k :: k != key ==> db'.List(k) == db.List(k))
  {
    var before := db.List(key);
    RemoveAllCounts(before, filename);
    forall a, b | before == a + b
      ensures RemoveAll(before, filename) == RemoveAll(a, filename) + RemoveAll(b, filename)
    {
      RemoveAllConcat(a, b, filename);
    }
  }

  // ---------------------------------------------------------------------
  // Object-storage paths and URLs (the storage calls are opaque)

  datatype OssFailure = OpenFailed | PutFailed | DeleteFailed | ListFailedErr

  function ObjectPath(deviceType: string, filename: string): string {
    deviceType + "/" + filename
  }

  function ObjectUrl(baseURL: string, objectKey: string): string {
    baseURL + "/" + objectKey
  }

  /** UploadToOSS: the object "<device>/<name>" is written and its CDN URL returned. */
  function UploadToOSS(baseURL: string, deviceType: string, filename: string, openFails: bool, putFails: bool)
    : (r: Result<string, OssFailure>)
  {
    if openFails then Err(OpenFailed)
    else if putFails then Err(PutFailed)
    else Ok(ObjectUrl(baseURL, ObjectPath(deviceType, filename)))
  }

  /** DeleteFromOSS: the key of the object it asks OSS to delete, with the outcome. */
  function DeleteFromOSS(filename: string, deviceType: string, deleteFails: bool): (Outcome<OssFailure>, string)
  {
    var objectKey := ObjectPath(deviceType, filename);
    (if deleteFails then Fail(DeleteFailed) else Pass, objectKey)
  }

  /**
   * A deletion addresses the object an upload of the same name for the same
   * device wrote: the upload's URL is the deleted key's URL, the key lies
   * under "<device>/", and its last path element is the name.
   */
  lemma DeletedObjectIsUploaded(baseURL: string, deviceType: string, filename: string, deleteFails: bool)
    requires '/' !in filename
    ensures var res := DeleteFromOSS(filename, deviceType, deleteFails);
      && res.0 == (if deleteFails then Fail(DeleteFailed) else Pass)
      && UploadToOSS(baseURL, deviceType, filename, false, false) == Ok(ObjectUrl(baseURL, res.1))
      && HasPrefix(res.1, deviceType + "/")
      && AfterLastSlash(res.1) == filename
  {
    AfterLastSlashOfJoin(deviceType, filename);
  }

  /**
   * An uploaded name without '/' is found again by a listing with prefix
   * "<device>/", its last path element is the name, and so is the last path
   * element of its URL.
   */
  lemma UploadedObjectRoundTrip(baseURL: string, deviceType: string, filename: string)
    requires '/' !in filename
    ensures HasPrefix(ObjectPath(deviceType, filename), deviceType + "/")
    ensures AfterLastSlash(ObjectPath(deviceType, filename)) == filename
    ensures var r := UploadToOSS(baseURL, deviceType, filename, false, false);
      r.Ok? && AfterLastSlash(r.value) == filename
  {
    AfterLastSlashOfJoin(deviceType, filename);
    assert ObjectUrl(baseURL, ObjectPath(deviceType, filename)) == (baseURL + "/" + deviceType) + "/" + filename;
    AfterLastSlashOfJoin(baseURL + "/" + deviceType, filename);
  }

  function Urls(baseURL: string, keys: seq<string>): seq<string> {
    seq(|keys|, i requires 0 <= i < |keys| => ObjectUrl(baseURL, keys[i]))
  }

  lemma {:induction false} UrlsSnoc(baseURL: string, keys: seq<string>, key: string)
    ensures Urls(baseURL, keys + [key]) == Urls(baseURL, keys) + [ObjectUrl(baseURL, key)]
  {
    var l, r := Urls(baseURL, keys + [key]), Urls(baseURL, keys) + [ObjectUrl(baseURL, key)];
    forall i | 0 <= i < |l|
      ensures l[i] == r[i]
    {
      if i < |keys| {
        assert (keys + [key])[i] == keys[i];
      }
    }
  }

  /** The loop over one page's objects: append the URL of each key that is not an ".alist" file. */
  method AppendPageUrls(fileURLs: seq<string>, ghost kept: seq<string>, baseURL: string, keys: seq<string>)
    returns (out: seq<string>)
    requires fileURLs == Urls(baseURL, kept)
    ensures out == Urls(baseURL, kept + Visible(keys))
  {
    out := fileURLs;
    for j := 0 to |keys|
      invariant out == Urls(baseURL, kept + Visible(keys[..j]))
    {
      var key := keys[j];
      assert keys[..j + 1][..j] == keys[..j];
      ghost var seen := kept + Visible(keys[..j]);
      if HasSuffix(key, ".alist") {
        assert kept + Visible(keys[..j + 1]) == seen;
        continue;
      }
      assert kept + Visible(keys[..j + 1]) == seen + [key];
      UrlsSnoc(baseURL, seen, key);
      out := out + [ObjectUrl(baseURL, key)];
    }
    assert keys[..|keys|] == keys;
  }

  /**
   * GetWallpaperURLsFromOSS: pages through the listing for "<device>/" and
   * returns the URL of every key that is not an ".alist" file, or nothing
   * when a listing request fails. `requests` are the requests it sent.
   */
  method GetWallpaperURLsFromOSS(pages: seq<ListResponse>, deviceType: string, baseURL: string)
    returns (fileURLs: seq<string>, ok: bool, requests: seq<ListRequest>)
    requires Ends(pages)
    ensures ok == ScanFrom(pages, "").complete
    ensures requests == Requests(deviceType + "/", ScanFrom(pages, "").markers)
    ensures fileURLs == if ok then Urls(baseURL, ScanFrom(pages, "").keys) else []
  {
    var prefix := deviceType + "/";
    var marker := "";
    fileURLs := [];
    requests := [];
    ghost var kept: seq<string> := [];
    ghost var sent: seq<string> := [];
    ghost var whole := ScanFrom(pages, "");
    var i := 0;
    while true
      invariant 0 <= i < |pages| && Ends(pages[i..])
      invariant ScannedUpTo(pages, i, marker, whole, kept, sent)
      invariant fileURLs == Urls(baseURL, kept) && requests == Requests(prefix, sent)
      decreases |pages| - i
    {
      RequestsSnoc(prefix, sent, marker);
      requests := requests + [ListRequest(prefix, marker, MaxKeys)];
      match pages[i]
      case ListFailed =>
        ScanStop(pages, i, marker, whole, kept, sent);
        return [], false, requests;
      case Listed(result) =>
        fileURLs := AppendPageUrls(fileURLs, kept, baseURL, result.keys);
        if result.isTruncated {
          ScanAdvance(pages, i, marker, whole, kept, sent);
          kept := kept + Visible(result.keys);
          sent := sent + [marker];
          marker := result.nextMarker;
          i := i + 1;
        } else {
          ScanStop(pages, i, marker, whole, kept, sent);
          kept := kept + Visible(result.keys);
          sent := sent + [marker];
          break;
        }
    }
    ok := true;
  }
}
