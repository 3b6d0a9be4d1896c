/**
 * The cache (re)build run at start-up and on demand: list every object
 * under "<device>/", push the file names into the device's source list,
 * and fill the device's random queue when it is missing.
 */
module Startup {
  import opened Wrappers
  import opened Text
  import opened Redis
  import opened Oss
  import opened Wallpaper

  /** getFilenameFromKey: the last element of the key split at '/'. */
  function GetFilenameFromKey(objectKey: string): string {
    AfterLastSlash(objectKey)
  }

  /**
   * The name is the text after the last '/': it holds no '/', ends the key
   * right after a '/' or is the whole key, is the whole key when the key
   * has no '/', and is empty when the key ends in '/'.
   */
  lemma FilenameIsLastPathElement(objectKey: string)
    ensures var name := GetFilenameFromKey(objectKey);
      && '/' !in name
      && HasSuffix(objectKey, name)
      && (|name| < |objectKey| ==> objectKey[|objectKey| - |name| - 1] == '/')
      && ('/' !in objectKey ==> name == objectKey)
      && (objectKey != [] && objectKey[|objectKey| - 1] == '/' ==> name == [])
  {
    AfterLastSlashShape(objectKey);
  }

  /** The file name of each key, as GetFilenameFromKey computes it. */
  function Filenames(keys: seq<string>): (names: seq<string>)
    ensures |names| == |keys|
  {
    seq(|keys|, i requires 0 <= i < |keys| => AfterLastSlash(keys[i]))
  }

  lemma {:induction false} FilenamesSnoc(keys: seq<string>, key: string)
    ensures Filenames(keys + [key]) == Filenames(keys) + [AfterLastSlash(key)]
  {
    var l, r := Filenames(keys + [key]), Filenames(keys) + [AfterLastSlash(key)];
    forall i | 0 <= i < |l|
      ensures l[i] == r[i]
    {
      if i < |keys| {
        assert (keys + [key])[i] == keys[i];
      }
    }
  }

  /** The source list a listing prefix fills: "wallpaper:" and the prefix without its trailing '/'. */
  function ListKey(prefix: string): string {
    "wallpaper:" + TrimSuffix(prefix, "/")
  }

  lemma ListKeyOfDevice(deviceType: string)
    ensures ListKey(deviceType + "/") == SourceKey(deviceType)
  {
    var p := deviceType + "/";
    assert HasSuffix(p, "/");
    assert TrimSuffix(p, "/") == p[..|p| - 1] == deviceType;
  }

  // ---------------------------------------------------------------------
  // populateWallpaperList

  /**
   * The listing loop over `pages`, then one LPUSH of every kept file name:
   * the number of names found, the outcome, and the new store.
   */
  function Populate(db: Db, pages: seq<ListResponse>, prefix: string, lpushFails: bool): (Outcome<Failure>, nat, Db)
    requires Ends(pages)
  {
    var s := ScanFrom(pages, "");
    var names := Filenames(s.keys);
    if !s.complete then (Fail(ListingFailed), |names|, db)
    else if names == [] then (Pass, 0, db)
    else if lpushFails then (Fail(StoreError), |names|, db)
    else (Pass, |names|, db.LPush(ListKey(prefix), names))
  }

  /** The loop over one page's objects: append the file name of each key that is not an ".alist" file. */
  method AppendPageNames(wallpaperList: seq<string>, totalCount: nat, ghost kept: seq<string>, keys: seq<string>)
    returns (names: seq<string>, count: nat)
    requires wallpaperList == Filenames(kept) && totalCount == |kept|
    ensures names == Filenames(kept + Visible(keys)) && count == |kept + Visible(keys)|
  {
    names, count := wallpaperList, totalCount;
    for j := 0 to |keys|
      invariant names == Filenames(kept + Visible(keys[..j])) && count == |kept + Visible(keys[..j])|
    {
      var key := keys[j];
      assert keys[..j + 1][..j] == keys[..j];
      ghost var seen := kept + Visible(keys[..j]);
      if HasSuffix(key, ".alist") {
        assert kept + Visible(keys[..j + 1]) == seen;
        continue;
      }
      assert kept + Visible(keys[..j + 1]) == seen + [key];
      FilenamesSnoc(seen, key);
      names := names + [GetFilenameFromKey(key)];
      count := count + 1;
    }
    assert keys[..|keys|] == keys;
  }

  /**
   * The listing loop of populateWallpaperList: page after page from the
   * empty marker, the file names of the kept keys in listing order,
   * whether the listing got to its last page, and the requests it sent.
   */
  method CollectNames(pages: seq<ListResponse>, prefix: string)
    returns (complete: bool, wallpaperList: seq<string>, totalCount: nat, requests: seq<ListRequest>)
    requires Ends(pages)
    ensures complete == ScanFrom(pages, "").complete
    ensures requests == Requests(prefix, ScanFrom(pages, "").markers)
    ensures wallpaperList == Filenames(ScanFrom(pages, "").keys) && totalCount == |wallpaperList|
  {
    var marker := "";
    wallpaperList, totalCount, requests := [], 0, [];
    ghost var kept: seq<string> := [];
    ghost var sent: seq<string> := [];
    ghost var whole := ScanFrom(pages, "");
    var i := 0;
    while true
      invariant 0 <= i < |pages| && Ends(pages[i..])
      invariant ScannedUpTo(pages, i, marker, whole, kept, sent)
      invariant wallpaperList == Filenames(kept) && totalCount == |kept|
      invariant requests == Requests(prefix, sent)
      decreases |pages| - i
    {
      RequestsSnoc(prefix, sent, marker);
      requests := requests + [ListRequest(prefix, marker, MaxKeys)];
      match pages[i]
      case ListFailed =>
        ScanStop(pages, i, marker, whole, kept, sent);
        return false, wallpaperList, totalCount, requests;
      case Listed(objects) =>
        wallpaperList, totalCount := AppendPageNames(wallpaperList, totalCount, kept, objects.keys);
        if objects.isTruncated {
          ScanAdvance(pages, i, marker, whole, kept, sent);
          kept := kept + Visible(objects.keys);
          sent := sent + [marker];
          marker := objects.nextMarker;
          i := i + 1;
        } else {
          ScanStop(pages, i, marker, whole, kept, sent);
          kept := kept + Visible(objects.keys);
          return true, wallpaperList, totalCount, requests;
        }
    }
  }

  method PopulateWallpaperList(client: Client, pages: seq<ListResponse>, prefix: string, lpushFails: bool)
    returns (r: Outcome<Failure>, totalCount: nat)
    requires client.Valid() && Ends(pages)
    modifies client
    ensures client.Valid()
    ensures (r, totalCount, client.db) == Populate(old(client.db), pages, prefix, lpushFails)
  {
    var complete, wallpaperList, requests;
    complete, wallpaperList, totalCount, requests := CollectNames(pages, prefix);
    if !complete {
      return Fail(ListingFailed), totalCount;
    }
    if |wallpaperList| > 0 {
      var key := "wallpaper:" + TrimSuffix(prefix, "/");
      if lpushFails {
        return Fail(StoreError), totalCount;
      }
      var args := StringSliceToInterfaceSlice(wallpaperList);
      var _ := client.LPush(key, args[..]);
    }
    r := Pass;
  }

  /**
   * The count is the number of objects kept from the pages the loop read
   * (all of them on success, those before the failing request otherwise),
   * none of them an ".alist" file; the call reports a listing failure
   * exactly when the last request it sent failed.
   */
  lemma PopulateCountsKeptObjects(db: Db, pages: seq<ListResponse>, prefix: string, lpushFails: bool)
    requires Ends(pages)
    ensures var (r, count, _) := Populate(db, pages, prefix, lpushFails);
      var n := |ScanFrom(pages, "").markers|;
      && count == |KeptIn(pages[..n])|
      && (forall k :: k in KeptIn(pages[..n]) ==> !HasSuffix(k, ".alist"))
      && (r == Fail(ListingFailed) <==> pages[n - 1].ListFailed?)
  {
    var s := ScanFrom(pages, "");
    ScanFollowsMarkers(pages, "");
    VisibleKeptSkipsIndexFiles(pages[..|s.markers|]);
  }

  /**
   * A failed call changes nothing; a successful one that found names pushes
   * their last path elements onto the prefix's list, so that its head is
   * the last one listed; no other key changes.
   */
  lemma PopulatePushesNames(db: Db, pages: seq<ListResponse>, prefix: string, lpushFails: bool)
    requires db.Valid() && Ends(pages)
    ensures var (r, count, db') := Populate(db, pages, prefix, lpushFails);
      var names := Filenames(ScanFrom(pages, "").keys);
      && (r.Fail? || count == 0 ==> db' == db)
      && (r.Pass? && count > 0 ==> db'.List(ListKey(prefix)) == Reverse(names) + db.List(ListKey(prefix)))
      && (forall k :: k != ListKey(prefix) ==> db'.SameAt(db, k))
  {
    var names := Filenames(ScanFrom(pages, "").keys);
    PushAllIsReversedPrefix(names, db.List(ListKey(prefix)));
  }

  lemma {:induction false} VisibleKeptSkipsIndexFiles(pages: seq<ListResponse>)
    ensures forall k :: k in KeptIn(pages) ==> !HasSuffix(k, ".alist")
  {
    if pages != [] {
      VisibleKeptSkipsIndexFiles(pages[1..]);
      if pages[0].Listed? {
        VisibleDropsIndexFiles(pages[0].listing.keys);
      }
    }
  }

  // ---------------------------------------------------------------------
  // initRandomWallpaperCache

  /** Which commands of initRandomWallpaperCache fail. */
  datatype InitFaults = InitFaults(existsFails: bool, lrangeFails: bool, execFails: bool, llenFails: bool)

  const NoInitFaults := InitFaults(false, false, false, false)

  /** EXISTS on the queue; RefillCache only when it is missing; then LLEN for the log line. */
  function InitRandom(db: Db, deviceType: string, f: InitFaults): (Outcome<Failure>, Db)
  {
    var keyCache := CacheKey(deviceType);
    if f.existsFails then (Fail(StoreError), db)
    else
      var (r, db') :=
        if db.Exists(keyCache) then (Pass, db)
        else Refill(db, SourceKey(deviceType), keyCache, f.lrangeFails, f.execFails);
      if r.Fail? then (r, db')
      else if f.llenFails then (Fail(StoreError), db')
      else (Pass, db')
  }

  method InitRandomWallpaperCache(client: Client, deviceType: string, f: InitFaults) returns (r: Outcome<Failure>)
    requires client.Valid()
    modifies client
    ensures client.Valid()
    ensures (r, client.db) == InitRandom(old(client.db), deviceType, f)
  {
    var keyOriginal := SourceKey(deviceType);
    var keyCache := CacheKey(deviceType);
    if f.existsFails {
      return Fail(StoreError);
    }
    var cacheExists := client.Exists(keyCache);
    if cacheExists == 0 {
      var refilled := RefillCache(client, keyOriginal, keyCache, f.lrangeFails, f.execFails);
      if refilled.Fail? {
        return refilled;
      }
    }
    if f.llenFails {
      return Fail(StoreError);
    }
    var _ := client.LLen(keyCache);
    r := Pass;
  }

  /** Filling a queue touches no key but that queue, and keeps the store well formed. */
  lemma InitRandomFrame(db: Db, deviceType: string, f: InitFaults)
    requires db.Valid()
    ensures var (_, db') := InitRandom(db, deviceType, f);
      && db'.Valid()
      && (forall k :: k != CacheKey(deviceType) ==> db'.SameAt(db, k))
  {
    SameDeviceKeysDistinct(deviceType);
    if !f.existsFails && !db.Exists(CacheKey(deviceType)) && !f.lrangeFails
      && db.List(SourceKey(deviceType)) != [] && !f.execFails
    {
      RefillReplacesQueue(db, SourceKey(deviceType), CacheKey(deviceType));
    }
  }

  /** An existing queue is left exactly as it is. */
  lemma InitKeepsExistingQueue(db: Db, deviceType: string, f: InitFaults)
    requires db.Exists(CacheKey(deviceType))
    ensures var (r, db') := InitRandom(db, deviceType, f);
      db' == db && (r.Pass? <==> !f.existsFails && !f.llenFails)
  {
  }

  /** A missing queue is filled with the source names in reverse order, or the call fails. */
  lemma InitFillsMissingQueue(db: Db, deviceType: string)
    requires db.Valid() && !db.Exists(CacheKey(deviceType))
    ensures var (r, db') := InitRandom(db, deviceType, NoInitFaults);
      && (r.Pass? <==> db.List(SourceKey(deviceType)) != [])
      && (r.Pass? ==> db'.List(CacheKey(deviceType)) == Reverse(db.List(SourceKey(deviceType))))
      && (r.Fail? ==> r.error == NoWallpapers && db' == db)
  {
    SameDeviceKeysDistinct(deviceType);
    if db.List(SourceKey(deviceType)) != [] {
      RefillReplacesQueue(db, SourceKey(deviceType), CacheKey(deviceType));
    }
  }

  // ---------------------------------------------------------------------
  // refreshCacheByDevice and resetCache

  /** One device's input to a rebuild: the listing answers and the faults of its commands. */
  datatype Rebuild = Rebuild(pages: seq<ListResponse>, lpushFails: bool, init: InitFaults)

  /** DEL both lists of the device, list "<device>/" into the source list, then fill the queue. */
  function Refresh(db: Db, deviceType: string, delFails: bool, input: Rebuild): (Outcome<Failure>, Db)
    requires Ends(input.pages)
  {
    if delFails then (Fail(StoreError), db)
    else
      var cleared := db.Del({SourceKey(deviceType), CacheKey(deviceType)});
      var (r, _, populated) := Populate(cleared, input.pages, deviceType + "/", input.lpushFails);
      if r.Fail? then (r, populated)
      else InitRandom(populated, deviceType, input.init)
  }

  method RefreshCacheByDevice(client: Client, deviceType: string, delFails: bool, input: Rebuild)
    returns (r: Outcome<Failure>)
    requires client.Valid() && Ends(input.pages)
    modifies client
    ensures client.Valid()
    ensures (r, client.db) == Refresh(old(client.db), deviceType, delFails, input)
  {
    if delFails {
      return Fail(StoreError);
    }
    client.Del({SourceKey(deviceType), CacheKey(deviceType)});
    var populated, _ := PopulateWallpaperList(client, input.pages, deviceType + "/", input.lpushFails);
    if populated.Fail? {
      return populated;
    }
    r := InitRandomWallpaperCache(client, deviceType, input.init);
  }

  /** A refresh of one device touches no key but that device's source list and queue. */
  lemma RefreshFrame(db: Db, deviceType: string, delFails: bool, input: Rebuild)
    requires db.Valid() && Ends(input.pages)
    ensures var (_, db') := Refresh(db, deviceType, delFails, input);
      && db'.Valid()
      && (forall k :: k != SourceKey(deviceType) && k != CacheKey(deviceType) ==> db'.SameAt(db, k))
  {
    ListKeyOfDevice(deviceType);
    if !delFails {
      var cleared := db.Del({SourceKey(deviceType), CacheKey(deviceType)});
      PopulatePushesNames(cleared, input.pages, deviceType + "/", input.lpushFails);
      var (r, _, populated) := Populate(cleared, input.pages, deviceType + "/", input.lpushFails);
      var (_, db') := InitRandom(populated, deviceType, input.init);
      InitRandomFrame(populated, deviceType, input.init);
      var result := Refresh(db, deviceType, delFails, input);
      assert result == if r.Fail? then (r, populated) else InitRandom(populated, deviceType, input.init);
      forall k | k != SourceKey(deviceType) && k != CacheKey(deviceType)
        ensures result.1.SameAt(db, k)
      {
        assert cleared.SameAt(db, k);
        assert populated.SameAt(cleared, k);
        assert db'.SameAt(populated, k);
      }
    }
  }


  /**
   * A refresh with no failures rebuilds the source list as the listed names
   * in reverse and the queue as the listed names in listing order; over an
   * empty listing it fails with "no wallpapers available" and leaves both
   * lists empty.
   */
  lemma RefreshRebuildsDevice(db: Db, deviceType: string, pages: seq<ListResponse>)
    requires db.Valid() && Ends(pages) && ScanFrom(pages, "").complete
    ensures var names := Filenames(ScanFrom(pages, "").keys);
      var (r, db') := Refresh(db, deviceType, false, Rebuild(pages, false, NoInitFaults));
      && (names != [] ==>
            && r.Pass?
            && db'.List(SourceKey(deviceType)) == Reverse(names)
            && db'.List(CacheKey(deviceType)) == names)
      && (names == [] ==>
            && r == Fail(NoWallpapers)
            && db'.List(SourceKey(deviceType)) == [] && db'.List(CacheKey(deviceType)) == [])
  {
    var names := Filenames(ScanFrom(pages, "").keys);
    ListKeyOfDevice(deviceType);
    SameDeviceKeysDistinct(deviceType);
    var cleared := db.Del({SourceKey(deviceType), CacheKey(deviceType)});
    var (_, _, populated) := Populate(cleared, pages, deviceType + "/", false);
    PushAllIsReversedPrefix(names, []);
    if names != [] {
      assert populated.List(SourceKey(deviceType)) == Reverse(names);
      RefillReplacesQueue(populated, SourceKey(deviceType), CacheKey(deviceType));
      ReverseReverse(names);
    }
  }

  lemma ReverseReverse(s: seq<string>)
    ensures Reverse(Reverse(s)) == s
  {
  }

  /** "wallpaper:pc", "wallpaper:mobile", "wallpaper:cache:pc" and "wallpaper:cache:mobile". */
  const AllKeys: set<string> := {SourceKey("pc"), SourceKey("mobile"), CacheKey("pc"), CacheKey("mobile")}

  /**
   * resetCache: DEL the four lists, populate "pc/" then "mobile/", then fill
   * the PC queue and the mobile queue; the first failure ends it.
   */
  function Reset(db: Db, delFails: bool, pc: Rebuild, mobile: Rebuild): (Outcome<Failure>, Db)
    requires Ends(pc.pages) && Ends(mobile.pages)
  {
    if delFails then (Fail(StoreError), db)
    else
      var cleared := db.Del(AllKeys);
      var (r1, _, db1) := Populate(cleared, pc.pages, "pc/", pc.lpushFails);
      if r1.Fail? then (r1, db1)
      else
        var (r2, _, db2) := Populate(db1, mobile.pages, "mobile/", mobile.lpushFails);
        if r2.Fail? then (r2, db2)
        else InitQueues(db2, pc.init, mobile.init)
  }

  /** The last two steps of a reset: initialise the pc queue, then the mobile queue. */
  function InitQueues(db: Db, pcInit: InitFaults, mobileInit: InitFaults): (Outcome<Failure>, Db)
  {
    var (r, db') := InitRandom(db, "pc", pcInit);
    if r.Fail? then (r, db') else InitRandom(db', "mobile", mobileInit)
  }

  method ResetCache(client: Client, delFails: bool, pc: Rebuild, mobile: Rebuild) returns (r: Outcome<Failure>)
    requires client.Valid() && Ends(pc.pages) && Ends(mobile.pages)
    modifies client
    ensures client.Valid()
    ensures (r, client.db) == Reset(old(client.db), delFails, pc, mobile)
  {
    if delFails {
      return Fail(StoreError);
    }
    client.Del(AllKeys);
    var pcPopulated, _ := PopulateWallpaperList(client, pc.pages, "pc/", pc.lpushFails);
    if pcPopulated.Fail? {
      return pcPopulated;
    }
    var mobilePopulated, _ := PopulateWallpaperList(client, mobile.pages, "mobile/", mobile.lpushFails);
    if mobilePopulated.Fail? {
      return mobilePopulated;
    }
    var pcQueue := InitRandomWallpaperCache(client, "pc", pc.init);
    if pcQueue.Fail? {
      return pcQueue;
    }
    r := InitRandomWallpaperCache(client, "mobile", mobile.init);
  }

  /** One Populate step of a rebuild, into a source list the DEL emptied. */
  lemma PopulateIntoEmptyList(db: Db, pages: seq<ListResponse>, prefix: string)
    requires db.Valid() && Ends(pages) && ScanFrom(pages, "").complete
    requires Filenames(ScanFrom(pages, "").keys) != [] && db.List(ListKey(prefix)) == []
    ensures var res := Populate(db, pages, prefix, false);
      var db' := res.2;
      && res.0.Pass? && db'.Valid()
      && db'.List(ListKey(prefix)) == Reverse(Filenames(ScanFrom(pages, "").keys))
      && (forall k :: k != ListKey(prefix) ==> db'.SameAt(db, k))
  {
    PopulatePushesNames(db, pages, prefix, false);
  }

  /** One InitRandom step of a rebuild, over a queue the DEL removed. */
  lemma InitIntoMissingQueue(db: Db, deviceType: string)
    requires db.Valid() && db.List(SourceKey(deviceType)) != [] && !db.Exists(CacheKey(deviceType))
    ensures var res := InitRandom(db, deviceType, NoInitFaults);
      var db' := res.1;
      && res.0.Pass? && db'.Valid()
      && db'.List(CacheKey(deviceType)) == Reverse(db.List(SourceKey(deviceType)))
      && (forall k :: k != CacheKey(deviceType) ==> db'.SameAt(db, k))
  {
    InitFillsMissingQueue(db, deviceType);
    InitRandomFrame(db, deviceType, NoInitFaults);
  }

  /**
   * With both source lists filled and both queues gone, the two InitRandom
   * steps pass and leave each queue as its source list reversed.
   */
  lemma InitQueuesFillsBoth(db: Db)
    requires db.Valid() && db.List(SourceKey("pc")) != [] && db.List(SourceKey("mobile")) != []
    requires !db.Exists(CacheKey("pc")) && !db.Exists(CacheKey("mobile"))
    ensures var res := InitQueues(db, NoInitFaults, NoInitFaults);
      && res.0.Pass?
      && res.1.List(SourceKey("pc")) == db.List(SourceKey("pc"))
      && res.1.List(SourceKey("mobile")) == db.List(SourceKey("mobile"))
      && res.1.List(CacheKey("pc")) == Reverse(db.List(SourceKey("pc")))
      && res.1.List(CacheKey("mobile")) == Reverse(db.List(SourceKey("mobile")))
  {
    var pcSource, pcQueue, mobileSource, mobileQueue := SourceKey("pc"), CacheKey("pc"), SourceKey("mobile"), CacheKey("mobile");
    DeviceKeysDistinct("pc", "mobile");
    DeviceKeysDistinct("mobile", "pc");
    SameDeviceKeysDistinct("pc");
    SameDeviceKeysDistinct("mobile");
    InitIntoMissingQueue(db, "pc");
    var db3 := InitRandom(db, "pc", NoInitFaults).1;
    assert db3.SameAt(db, pcSource) && db3.SameAt(db, mobileSource) && db3.SameAt(db, mobileQueue);
    ExistsIffNonEmpty(db3, mobileQueue);
    InitIntoMissingQueue(db3, "mobile");
    var db4 := InitRandom(db3, "mobile", NoInitFaults).1;
    assert db4.SameAt(db3, pcSource) && db4.SameAt(db3, pcQueue) && db4.SameAt(db3, mobileSource);
  }

  /**
   * A reset with no failures over two non-empty listings leaves each
   * device's source list as its listed names in reverse and its queue as
   * its listed names in listing order, whatever the store held before.
   */
  lemma ResetRebuildsBothDevices(db: Db, pcPages: seq<ListResponse>, mobilePages: seq<ListResponse>)
    requires db.Valid() && Ends(pcPages) && Ends(mobilePages)
    requires ScanFrom(pcPages, "").complete && ScanFrom(mobilePages, "").complete
    requires Filenames(ScanFrom(pcPages, "").keys) != [] && Filenames(ScanFrom(mobilePages, "").keys) != []
    ensures var pcNames, mobileNames := Filenames(ScanFrom(pcPages, "").keys), Filenames(ScanFrom(mobilePages, "").keys);
      var res := Reset(db, false, Rebuild(pcPages, false, NoInitFaults), Rebuild(mobilePages, false, NoInitFaults));
      && res.0.Pass?
      && res.1.List(SourceKey("pc")) == Reverse(pcNames) && res.1.List(CacheKey("pc")) == pcNames
      && res.1.List(SourceKey("mobile")) == Reverse(mobileNames) && res.1.List(CacheKey("mobile")) == mobileNames
  {
    var pcNames, mobileNames := Filenames(ScanFrom(pcPages, "").keys), Filenames(ScanFrom(mobilePages, "").keys);
    var pcSource, pcQueue, mobileSource, mobileQueue := SourceKey("pc"), CacheKey("pc"), SourceKey("mobile"), CacheKey("mobile");
    ListKeyOfDevice("pc");
    ListKeyOfDevice("mobile");
    assert "pc" + "/" == "pc/" && "mobile" + "/" == "mobile/";
    DeviceKeysDistinct("pc", "mobile");
    DeviceKeysDistinct("mobile", "pc");
    SameDeviceKeysDistinct("pc");
    SameDeviceKeysDistinct("mobile");
    var cleared := db.Del(AllKeys);
    assert cleared.List(pcSource) == [] && cleared.List(mobileSource) == [];
    assert !cleared.Exists(pcQueue) && !cleared.Exists(mobileQueue);

    PopulateIntoEmptyList(cleared, pcPages, "pc/");
    var db1 := Populate(cleared, pcPages, "pc/", false).2;
    assert db1.SameAt(cleared, mobileSource) && db1.SameAt(cleared, pcQueue) && db1.SameAt(cleared, mobileQueue);

    PopulateIntoEmptyList(db1, mobilePages, "mobile/");
    var db2 := Populate(db1, mobilePages, "mobile/", false).2;
    assert db2.SameAt(db1, pcSource) && db2.SameAt(db1, pcQueue) && db2.SameAt(db1, mobileQueue);
    assert !db2.Exists(pcQueue) && !db2.Exists(mobileQueue);

    InitQueuesFillsBoth(db2);
    ReverseReverse(pcNames);
    ReverseReverse(mobileNames);
  }
}
