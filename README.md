# wallpaper-api-v1 in Dafny

A model of the core of wallpaper-api-v1. This is a Go HTTP service that serves random wallpapers from object storage (OSS) through Redis. It has four parts.

- **The wallpaper service** (`internal/service/wallpaper.go`, modelled in `wallpaper.dfy`).
  - Each device type ("pc" or "mobile") has a source list `wallpaper:<device>` and a draw queue `wallpaper:cache:<device>`.
  - A request pops a name from the queue.
  - When the queue is missing, the first caller takes the lease lock `lock:wallpaper:<device>` with SET NX. It refills the queue from the source list in one transaction, publishes "done", pops, and releases the lock with a compare-and-delete script.
  - Any other caller waits for the signal and then pops from the queue the lock holder rebuilt.
  - Uploads and deletions are mirrored into both lists with LREM/LPUSH.
  - Object paths and CDN URLs are built from the device type and the file name.
- **The cache build** (`cmd/server/main.go`, modelled in `startup.dfy`).
  - `populateWallpaperList` pages through the OSS listing with markers, skips `.alist` index files, and LPUSHes the file names.
  - `initRandomWallpaperCache` fills a missing queue.
  - `refreshCacheByDevice` and `resetCache` rebuild one device or both.
- **The request handlers** (`cmd/server/main.go`, modelled in `handlers.dfy`).
  - `handleWallpaper` turns a drawn name into a reply.
  - `uploadWallpapers` runs its checks and then, for each file, stores it and mirrors it into the lists.
- **The rate limiter** (`internal/middleware/ratelimit.go`, modelled in `ratelimit.dfy`).
  - State is keyed by (client IP, ceiling).
  - A request runs the block-window check, then fetch-or-create of the limiter, then installs a two-minute block on denial or records the last access on admission.
  - A periodic sweep drops limiters idle for more than fifteen minutes.
- **The OSS event function** (`scripts/sync_oss_to_redis.py`, modelled in `sync.dfy`). It adds the basename of each created object to the Redis set `wallpaper:<device>` (SADD), and removes the basename of each deleted object from it (SREM).

Supporting modules:
- `wrappers.dfy` holds Option, Result and Outcome.
- `text.dfy` holds prefix and suffix tests, ASCII lower-casing, the last path element, and `filepath.Ext`.
- `redis.dfy` holds the Redis server as a value `Db`, plus a `Client` class with one method per command.
- `oss.dfy` holds the listing as a sequence of page answers, plus the pagination loop as a specification function `ScanFrom`.

How the model is built:
- Every Redis command, OSS call or file open that can fail gets a boolean fault input. A failed command changes nothing.
- Time is an integer in milliseconds.
- The lock token (a UUID in the source) is a parameter.
- The Redis store is a value `Redis.Db`. The `Redis.Client` class holds it and has one method per Redis command. The set commands SADD and SREM of the OSS event function are methods of `OssSync.SetStore`.
- The service, cache-build and handler operations are module-level methods that take a `Client`. Each one's `ensures` ties the reply and the new store to a function of the old store, such as `Wallpaper.Draw` or `Startup.Populate`. The lemmas beside that function state what the operation promises.
- The rate limiter keeps no Redis state. Its maps are fields of the class `RateLimit.Registry`, which its methods update in place.

Behaviour the model follows as written, which a reader might not expect:
- A caller that finds the lock held waits at most 3 s for "done" (`internal/service/wallpaper.go:74-85`). When the receive fails it returns the error at once and does not try the pop (`Wallpaper.WaiterDoesNotRetry`).
- The unlock script is deferred (`internal/service/wallpaper.go:66`), so the lock holder releases the lock after its BLPOP, not right after the publish.
- `handleWallpaper` answers every draw error with 500, including "no wallpapers available" and an expired BLPOP wait. Its 404 branch, commented "no wallpaper found", is reached only by an empty file name (`cmd/server/main.go:397-410`).
- The comments at `internal/service/wallpaper.go:178`, `:196`, `:214` and `:225` say at most one copy is deleted. The code calls LREM with count 0, which deletes every copy (`Wallpaper.RemoveDropsEveryCopy`, `Wallpaper.AddLeavesOneCopyAtHead`).
- The cleanup loop deletes expired keys from the limiter and last-access maps only (`internal/middleware/ratelimit.go:137-141`). Block windows stay in their map.

## Model

| member | source | states |
|---|---|---|
| Text.TrimSuffix | cmd/server/main.go:277 | with the suffix present, the result followed by the suffix is the input; otherwise the input is returned unchanged |
| Text.ToLowerIdempotent | internal/service/wallpaper.go:136 | lower-casing twice is lower-casing once |
| Text.AfterLastSlashShape | cmd/server/main.go:287-290 | the last element of a split at '/' holds no '/', is a suffix of the key, and is either the whole key or preceded by '/' |
| Text.AfterLastSlashOfJoin | internal/service/wallpaper.go:150 | the last path element of "<dir>/<name>" is the name when the name has no '/' |
| Text.ExtShape | internal/service/wallpaper.go:136 | filepath.Ext is empty exactly when the last path element has no '.'; otherwise it is a suffix of the path made of '.' followed by no '.' and no '/' |
| Text.ExtOfLower | internal/service/wallpaper.go:136 | taking the extension commutes with lower-casing |
| Text.ExtOfSuffix | internal/service/wallpaper.go:136 | a name ending in a dot-suffix without another '.' or '/' has exactly that suffix as its extension |
| Redis.PushAllIsReversedPrefix | internal/service/wallpaper.go:122 | LPUSH of x1..xn puts xn..x1 in front of the old list |
| Redis.ReverseSameElements | internal/service/wallpaper.go:122 | a reversed list has the same elements with the same counts, and its head is the original's last element |
| Redis.RemoveAll | internal/service/wallpaper.go:180 | LREM with count 0 leaves no copy of the value, adds nothing and never lengthens the list |
| Redis.RemoveAllCounts | internal/service/wallpaper.go:180 | LREM with count 0 sets the value's count to zero and keeps every other element's count |
| Redis.RemoveAllConcat | internal/service/wallpaper.go:215 | LREM distributes over concatenation, so the remaining elements keep their order |
| Redis.RemoveAllAbsent | internal/service/wallpaper.go:226 | LREM of a value that is not in the list leaves the list as it is |
| Redis.Db.Store | internal/service/wallpaper.go:186 | writing a list back keeps the store well formed, deletes the key when the list is empty, and changes no other key |
| Redis.Db.Del | cmd/server/main.go:156 | DEL keeps the store well formed |
| Redis.ExistsIffNonEmpty | internal/service/wallpaper.go:48-56 | EXISTS answers 0 exactly when the list is empty |
| Redis.Client.Exists | internal/service/wallpaper.go:48 | EXISTS replies 1 for a present key and 0 for an absent one |
| Redis.Client.Del | cmd/server/main.go:190 | DEL removes exactly the named keys |
| Redis.Client.LRange | internal/service/wallpaper.go:109 | LRANGE 0 -1 reads the whole list, and an absent key reads as empty |
| Redis.Client.LLen | cmd/server/main.go:234 | LLEN replies with the list's length |
| Redis.Client.LPush | internal/service/wallpaper.go:186 | LPUSH pushes each argument at the head and replies with the new length |
| Redis.Client.LRem | internal/service/wallpaper.go:180 | LREM with count 0 removes every copy and replies with the number of copies there were |
| Redis.Client.BLPop | internal/service/wallpaper.go:90 | BLPOP takes the head, or replies nil on an empty list and leaves it |
| Redis.Client.SetNX | internal/service/wallpaper.go:58 | SET NX PX succeeds exactly when no live lease is held, and then stores the token with its expiry |
| Redis.Client.RunUnlockScript | internal/service/wallpaper.go:32-38 | the script deletes the lock only when it is held with the caller's token (reply 1); otherwise the reply is 0 and the lock is unchanged |
| Redis.Client.Publish | internal/service/wallpaper.go:72 | PUBLISH appends the message and changes no key |
| Oss.VisibleDropsIndexFiles | cmd/server/main.go:258-261 | a kept key is a listed key that does not end in ".alist", and every such listed key is kept |
| Oss.ScanFrom | cmd/server/main.go:250-273 | the loop sends at least one request and at most one per answer, and its first request uses the starting marker |
| Oss.ScanFollowsMarkers | cmd/server/main.go:250-273 | markers follow NextMarker while pages are truncated; the loop stops at the first failure or last page; it is complete exactly when that answer is a page; and it keeps exactly the visible keys of the pages it read |
| Wallpaper.ValidateDeviceType | internal/service/wallpaper.go:28-30 | only "pc" and "mobile" pass; `Wallpaper.DeviceKeysDistinct` and `Wallpaper.UncheckedDeviceKeysCollide` state what the check protects |
| Wallpaper.DeviceKeysDistinct | internal/service/wallpaper.go:42-44 | for the two accepted device types, no source or lock key is a queue key, and different devices have different lists |
| Wallpaper.UncheckedDeviceKeysCollide | internal/service/wallpaper.go:28-30 | without the device check, device "cache:pc" would read the "pc" draw queue as its source list |
| Wallpaper.SameDeviceKeysDistinct | internal/service/wallpaper.go:42-44 | one device's source list, queue and lock are three different keys |
| Wallpaper.IsImageFile | internal/service/wallpaper.go:134-138 | the lower-cased `filepath.Ext` of the name is one of six extensions; stated by the five lemmas that follow |
| Wallpaper.ImageExtensionShape | internal/service/wallpaper.go:137 | each accepted extension is '.' followed by three or four lower-case letters, with no further '.' and no '/' |
| Wallpaper.ImageNameHasDot | internal/service/wallpaper.go:134-138 | a name without '.' is never an image |
| Wallpaper.IsImageFileIgnoresCase | internal/service/wallpaper.go:134-138 | the image check gives the same answer for a name and its lower-cased form |
| Wallpaper.ImageByExtension | internal/service/wallpaper.go:134-138 | any name ending in one of the six extensions, in any case, is an image |
| Wallpaper.ImageJudgedByLastExtension | internal/service/wallpaper.go:134-138 | an image's extension is the text from the last '.' of its last path element, and that text lower-cased is one of the six |
| Wallpaper.StringSliceToInterfaceSlice | internal/service/wallpaper.go:19-25 | a fresh array holding the names in order |
| Wallpaper.Refill | internal/service/wallpaper.go:106-131 | the refill as a function of the store; stated by `Wallpaper.RefillFailureChangesNothing` and `Wallpaper.RefillReplacesQueue` |
| Wallpaper.RefillCache | internal/service/wallpaper.go:106-131 | the reply and the new store are those of `Refill`: LRANGE, then the empty check, then DEL and LPUSH in one transaction |
| Wallpaper.RefillFailureChangesNothing | internal/service/wallpaper.go:109-127 | a failed refill leaves the store unchanged, and an empty source list is reported as NoWallpapers |
| Wallpaper.RefillReplacesQueue | internal/service/wallpaper.go:119-127 | a successful refill makes the queue the source list reversed; every other list and the published messages stay, and only the queue's key loses any lease |
| Wallpaper.Pop | internal/service/wallpaper.go:90-102 | BLPOP gives the head and drops it, or CacheEmpty on an empty queue, or StoreError |
| Wallpaper.Draw | internal/service/wallpaper.go:40-103 | one call of GetRandomWallpaper as a function of the store, token, instant and faults; stated by the lemmas from `Wallpaper.DrawFromFilledQueue` to `Wallpaper.WaiterServedFromRefill` |
| Wallpaper.GetRandomWallpaper | internal/service/wallpaper.go:40-103 | the result and the new store are those of `Draw` for the same faults, token and instant |
| Wallpaper.DrawFromFilledQueue | internal/service/wallpaper.go:48-102 | with a non-empty queue, no lock and no refill: the head is returned, and the queue loses exactly it, the rest in order |
| Wallpaper.DrawAfterRefillServesSource | internal/service/wallpaper.go:56-102 | on the refill path, the last source name is returned and the queue holds the other source names with their counts; the source list is unchanged |
| Wallpaper.DrawFromEmptySource | internal/service/wallpaper.go:64-71 | over an empty source list the lock holder gets NoWallpapers, leaves the queue empty, publishes nothing and releases the lock |
| Wallpaper.DoneOnlyAfterRefill | internal/service/wallpaper.go:57-86 | "done" is published only after a successful refill of a non-empty source, once, on the device's channel: by this caller when it took the lock, or by the lock holder while this caller waited |
| Wallpaper.RefillAndPopFrame | internal/service/wallpaper.go:68-72 | between taking the lock and unlocking, only the device's queue changes |
| Wallpaper.DrawLockDiscipline | internal/service/wallpaper.go:57-66 | a lock lease held by another caller is never touched; the caller that took the lock holds it afterwards only when the unlock failed |
| Wallpaper.DrawStaysInPartition | internal/service/wallpaper.go:42-102 | a draw changes no list or lease outside the device's queue and lock |
| Wallpaper.WaiterDoesNotRetry | internal/service/wallpaper.go:73-85 | a waiter gets WaitFailed with nothing changed exactly when its receive fails or the source is empty, so that nobody publishes "done" |
| Wallpaper.HolderRefill | internal/service/wallpaper.go:68-72 | the store a waiter sees once "done" arrives: the holder's refill, then its message; stated by `Wallpaper.HolderRefillFrame` |
| Wallpaper.HolderRefillFrame | internal/service/wallpaper.go:68-72 | the holder's refill makes the queue the source list reversed, changes no other list or lease, and adds one "done" on the device's channel |
| Wallpaper.AwaitRefill | internal/service/wallpaper.go:73-86 | the wait ends with "done" exactly when the source list is non-empty, and the store is then the holder's refill and its message; otherwise nothing changes |
| Wallpaper.WaiterServedFromRefill | internal/service/wallpaper.go:73-102 | a waiter released by "done" gets the head of the rebuilt queue, which is the last source name; the queue keeps the rest of the reversed source, and nothing changes but that queue and one "done" message |
| Wallpaper.AddTo | internal/service/wallpaper.go:177-192 | LREM 0 then LPUSH as a function of the store; stated by `Wallpaper.AddLeavesOneCopyAtHead` and `Wallpaper.AddHalfDoneDropsName` |
| Wallpaper.AddToList | internal/service/wallpaper.go:177-192 | LREM 0 and then LPUSH of the name, each of which can fail; the new store is that of `AddTo` |
| Wallpaper.AddToWallpaperCache | internal/service/wallpaper.go:177-192 | `AddTo` on the source list "wallpaper:<device>" |
| Wallpaper.AddToRandomWallpaperCache | internal/service/wallpaper.go:195-210 | `AddTo` on the queue "wallpaper:cache:<device>" |
| Wallpaper.AddLeavesOneCopyAtHead | internal/service/wallpaper.go:177-192 | after an add the list is the name followed by the old list without it, so the name has count 1 and every other name keeps its count and order; no other key changes |
| Wallpaper.AddHalfDoneDropsName | internal/service/wallpaper.go:180-189 | when the LPUSH fails after the LREM, the name is gone from the list |
| Wallpaper.RemoveFrom | internal/service/wallpaper.go:213-231 | LREM 0 as a function of the store; stated by `Wallpaper.RemoveDropsEveryCopy` |
| Wallpaper.RemoveFromList | internal/service/wallpaper.go:213-231 | LREM 0 of the name, which can fail; the new store is that of `RemoveFrom` |
| Wallpaper.RemoveFromWallpaperCache | internal/service/wallpaper.go:213-221 | `RemoveFrom` on the source list |
| Wallpaper.RemoveFromRandomWallpaperCache | internal/service/wallpaper.go:224-231 | `RemoveFrom` on the queue |
| Wallpaper.RemoveDropsEveryCopy | internal/service/wallpaper.go:213-231 | a removal deletes every copy of the name, keeps every other name with its count and relative order, and changes no other key |
| Wallpaper.ObjectPath | internal/service/wallpaper.go:150 | the object key "<device>/<name>"; stated by `Wallpaper.UploadedObjectRoundTrip` and `Wallpaper.DeletedObjectIsUploaded` |
| Wallpaper.ObjectUrl | internal/service/wallpaper.go:159 | the CDN URL "<base>/<key>"; stated by `Wallpaper.UploadedObjectRoundTrip` |
| Wallpaper.UploadToOSS | internal/service/wallpaper.go:141-161 | open, put, then the URL of the object key, or the failing step; stated by `Wallpaper.UploadedObjectRoundTrip` |
| Wallpaper.DeleteFromOSS | internal/service/wallpaper.go:164-174 | the object key it deletes, with the outcome; stated by `Wallpaper.DeletedObjectIsUploaded` |
| Wallpaper.DeletedObjectIsUploaded | internal/service/wallpaper.go:141-174 | a delete fails exactly when DeleteObject fails; it deletes the key an upload of the same name for the same device writes (the upload's URL is that key's URL), under "<device>/" and with the name as its last path element |
| Wallpaper.UploadedObjectRoundTrip | internal/service/wallpaper.go:141-161 | an uploaded name without '/' is stored under "<device>/", and it is the last path element both of its object key and of its returned URL |
| Wallpaper.AppendPageUrls | internal/service/wallpaper.go:249-255 | the inner loop appends the URL of each key of the page that is not an ".alist" file, in order |
| Wallpaper.GetWallpaperURLsFromOSS | internal/service/wallpaper.go:234-267 | it sends one request per marker of `ScanFrom`, each with prefix "<device>/" and MaxKeys 1000; when the listing completes it returns the URLs of the kept keys, otherwise an error and no URLs |
| RateLimit.StatusOf | internal/middleware/ratelimit.go:32-77 | a bad configuration is answered with 500, and a block or a denial with 429 |
| RateLimit.Limiter.constructor | internal/middleware/ratelimit.go:100 | a new limiter has the given rate and burst |
| RateLimit.Registry.constructor | internal/middleware/ratelimit.go:19-26 | the three maps start empty |
| RateLimit.Registry.GetLimiter | internal/middleware/ratelimit.go:87-110 | an existing limiter is returned and never replaced; otherwise a fresh one with rate perSecond and burst max(perSecond, 1) is stored; the other maps are untouched |
| RateLimit.Registry.RateLimit | internal/middleware/ratelimit.go:29-84 | a ceiling <= 0 gives 500 and touches nothing; a block in force gives 429 and touches nothing; otherwise an expired or zero-time block is cleared and the limiter is fetched or created; a denial then stores a block until now + 2 min without recording access, and an admission records now as the last access |
| RateLimit.Registry.ExpiredKeys | internal/middleware/ratelimit.go:125-136 | the first sweep loop collects each limiter key with no last access or one more than 15 min old, each once |
| RateLimit.Registry.Sweep | internal/middleware/ratelimit.go:122-142 | one tick removes exactly the expired keys from the limiters and the last-access times, and leaves the block windows alone |
| RateLimit.SweepKeepsExactlyRecent | internal/middleware/ratelimit.go:126-134 | a limiter survives a sweep exactly when it was used within 15 min (strictly older is evicted) |
| RateLimit.SweepIdempotent | internal/middleware/ratelimit.go:125-141 | a second sweep at the same instant evicts nothing more |
| RateLimit.BurstScenario | internal/middleware/ratelimit.go:49-82 | at 5/s with five requests admitted: when the limiter denies the sixth, it is answered 429 and blocked for 2 min, a request 1 s later rejected by the block, and one at 2 min + 1 s admitted |
| RateLimit.KeysSeparateCeilings | internal/middleware/ratelimit.go:14-17 | a denial under one ceiling does not block the same IP under another |
| RateLimit.SweepScenario | internal/middleware/ratelimit.go:125-141 | a limiter idle for over 15 min is evicted and one used within them is kept |
| Startup.GetFilenameFromKey | cmd/server/main.go:287-290 | the text after the last '/'; stated by `Startup.FilenameIsLastPathElement` |
| Startup.FilenameIsLastPathElement | cmd/server/main.go:287-290 | the name is the text after the last '/': the whole key without '/', and empty for a key ending in '/' |
| Startup.Filenames | cmd/server/main.go:262-263 | one name per kept key |
| Startup.ListKeyOfDevice | cmd/server/main.go:277 | the list filled for prefix "<device>/" is the device's source list |
| Startup.AppendPageNames | cmd/server/main.go:258-265 | the inner loop appends the name of each non-".alist" key and counts it |
| Startup.CollectNames | cmd/server/main.go:246-273 | the listing loop sends one request per marker of `ScanFrom`, each with the given prefix and MaxKeys 1000, reports whether the listing completed, and returns the names of the keys `ScanFrom` keeps, with their count |
| Startup.Populate | cmd/server/main.go:245-284 | populateWallpaperList as a function of the store and the listing; stated by `Startup.PopulateCountsKeptObjects`, `Startup.PopulatePushesNames` and `Startup.PopulateIntoEmptyList` |
| Startup.PopulateWallpaperList | cmd/server/main.go:245-284 | the reply, count and new store are those of `Populate`: a listing failure, nothing to push, a failed push, or the LPUSH of every name |
| Startup.PopulateCountsKeptObjects | cmd/server/main.go:250-273 | the count is the number of non-".alist" keys on the pages read before the loop stopped, including after a listing error, which is reported exactly when the last request failed |
| Startup.PopulatePushesNames | cmd/server/main.go:276-283 | a failure, or no names, changes nothing; otherwise the names go reversed in front of "wallpaper:" + prefix without '/'; no other key changes |
| Startup.VisibleKeptSkipsIndexFiles | cmd/server/main.go:258-261 | no kept key ends in ".alist" |
| Startup.InitRandom | cmd/server/main.go:212-242 | initRandomWallpaperCache as a function of the store; stated by `Startup.InitRandomFrame`, `Startup.InitKeepsExistingQueue` and `Startup.InitFillsMissingQueue` |
| Startup.InitRandomWallpaperCache | cmd/server/main.go:212-242 | the reply and the new store are those of `InitRandom`: EXISTS, a refill only when the queue is missing, then LLEN |
| Startup.InitRandomFrame | cmd/server/main.go:212-242 | only the device's queue can change, and the store stays well formed |
| Startup.InitKeepsExistingQueue | cmd/server/main.go:218-232 | an existing queue is left exactly as it is |
| Startup.InitFillsMissingQueue | cmd/server/main.go:224-232 | a missing queue is filled with the source list reversed; it fails with NoWallpapers, changing nothing, exactly when the source list is empty |
| Startup.Refresh | cmd/server/main.go:186-210 | refreshCacheByDevice as a function of the store; stated by `Startup.RefreshFrame` and `Startup.RefreshRebuildsDevice` |
| Startup.RefreshCacheByDevice | cmd/server/main.go:186-210 | the reply and the new store are those of `Refresh`: DEL of the device's two lists, populate, init |
| Startup.RefreshFrame | cmd/server/main.go:189-203 | a refresh touches no key but the device's source list and queue, so the other device's lists are unchanged |
| Startup.RefreshRebuildsDevice | cmd/server/main.go:186-210 | without failures the source list becomes the listed names reversed and the queue the names in listing order; an empty listing gives NoWallpapers with both lists empty |
| Startup.Reset | cmd/server/main.go:152-184 | resetCache as a function of the store; stated by `Startup.ResetRebuildsBothDevices` |
| Startup.ResetCache | cmd/server/main.go:152-184 | the reply and the new store are those of `Reset`: DEL of the four lists, populate "pc/" then "mobile/", init pc then mobile, stopping at the first failure |
| Startup.PopulateIntoEmptyList | cmd/server/main.go:161-169 | populating an emptied list leaves it as the names reversed and no other key changed |
| Startup.InitIntoMissingQueue | cmd/server/main.go:172-177 | initialising a missing queue over a filled source leaves it as the source reversed and no other key changed |
| Startup.InitQueuesFillsBoth | cmd/server/main.go:171-177 | with both sources filled and both queues missing, both inits pass and each queue becomes its source reversed |
| Startup.ResetRebuildsBothDevices | cmd/server/main.go:152-184 | a reset without failures over two non-empty listings leaves each device's source list as its names reversed and its queue as its names in listing order, whatever was stored before |
| Handlers.Status | cmd/server/main.go:393-430 | an error reply has its own code; JSON and plain-text replies are 200 and a redirect is 302 |
| Handlers.WallpaperReply | cmd/server/main.go:382-431 | the reply for a drawn result; stated by `Handlers.WallpaperReplyCases` |
| Handlers.ImageUrl | cmd/server/main.go:413 | the image URL "<base>/<device>/<name>"; stated by `Handlers.ImageUrlAddressesObject` |
| Handlers.HandleWallpaper | cmd/server/main.go:382-431 | an invalid device gets 400 with the store untouched; otherwise the store is that of `Draw` and the reply is `WallpaperReply` of the drawn result |
| Handlers.WallpaperReplyCases | cmd/server/main.go:398-430 | 500 exactly for a failed draw and 404 exactly for an empty name; otherwise the URL is the object's URL, whose last path element is the name, sent as JSON for "json", as text for "url" and as a 302 otherwise |
| Handlers.ImageUrlAddressesObject | cmd/server/main.go:413 | "<base>/<device>/<name>" is the uploaded object's URL and ends with the name |
| Handlers.ServesHeadOfQueue | cmd/server/main.go:398-426 | a "url" request over a non-empty queue answers the head's URL and consumes that head |
| Handlers.Upload | cmd/server/main.go:434-496 | uploadWallpapers as a function of the store and the form; stated by `Handlers.UploadChecksFirst` and the upload lemmas that follow |
| Handlers.UploadWallpapers | cmd/server/main.go:434-496 | the reply and the new store are those of `Upload` |
| Handlers.UploadChecksFirst | cmd/server/main.go:439-459 | the checks run in order (password, device type, 1 to 5 files) before any file, and a request failing one writes nothing |
| Handlers.UploadStepStoresFile | cmd/server/main.go:463-491 | a file that goes through is an image answered with its object's URL; both device lists then hold its name exactly once, every other name keeps its count, and no other key changes |
| Handlers.UploadStepAnswersUrl | cmd/server/main.go:465-491 | a file that goes through passed the image check and is answered with its object's URL |
| Handlers.UploadSuccessChecksEveryFile | cmd/server/main.go:463-468 | a successful upload passed every file as an image |
| Handlers.UploadSuccessListsEveryUrl | cmd/server/main.go:462-495 | a successful reply lists each file's object URL in file order |
| Handlers.UploadSuccessStoresEveryFile | cmd/server/main.go:463-492 | after a successful upload every file's name is in both device lists exactly once, other names keep their counts, and no other key changes |
| Handlers.UploadKeepsEarlierFiles | cmd/server/main.go:463-468 | a non-image after stored files gets 400 and the earlier files' writes stay |
| OssSync.DeviceOf | scripts/sync_oss_to_redis.py:20 | "pc" exactly for keys starting with "pc/", and "mobile" for every other key |
| OssSync.SetStore.SAdd | scripts/sync_oss_to_redis.py:25 | SADD adds the member, creating the set, and replies 1 exactly when it was new |
| OssSync.SetStore.SRem | scripts/sync_oss_to_redis.py:27 | SREM removes the member, dropping an emptied set, and replies 1 exactly when it was there |
| OssSync.Handler | scripts/sync_oss_to_redis.py:15-27 | the loop applies the records' actions in list order and never leaves an empty set |
| OssSync.Classify | scripts/sync_oss_to_redis.py:19-27 | the action one record asks for; stated by `OssSync.ClassifyCases` |
| OssSync.ClassifyCases | scripts/sync_oss_to_redis.py:19-27 | "ObjectCreated:" gives an add and otherwise "ObjectRemoved:" gives a remove, on the device's set with the key's basename; any other event asks for nothing |
| OssSync.SetKeysDistinct | scripts/sync_oss_to_redis.py:25 | the pc and mobile sets are different keys |
| OssSync.ApplyAll | scripts/sync_oss_to_redis.py:15-27 | the records' actions applied in order; stated by the lemmas that follow |
| OssSync.ApplyAllAppend | scripts/sync_oss_to_redis.py:15 | applying a batch in two parts is applying it whole |
| OssSync.ApplyActionTouchesOwnKey | scripts/sync_oss_to_redis.py:24-27 | a record changes no set but its own device's |
| OssSync.ApplyAllTouchesDeviceSets | scripts/sync_oss_to_redis.py:15-27 | a batch changes no key except the two device sets |
| OssSync.ApplyAllKeepsNoEmptySets | scripts/sync_oss_to_redis.py:15-27 | no batch leaves an empty set |
| OssSync.AddPresentIsNoOp | scripts/sync_oss_to_redis.py:25 | re-adding a present name leaves the sets unchanged |
| OssSync.MembershipAfterAction | scripts/sync_oss_to_redis.py:24-27 | one action decides the membership of its own (set, name) pair and leaves every other pair alone |
| OssSync.LastTouchDecides | scripts/sync_oss_to_redis.py:15-27 | after a batch a name is in a set exactly when the last record naming that pair was a creation, or, with no such record, when it was there before |

## Left out

- Concurrency. There are no concurrent draws, no pub/sub delivery and no sync.Map races. `getLimiter`'s LoadOrStore race is modelled as the sequential store.
- Wallpaper.GetRandomWallpaper: a waiter sees the store as the lock holder's successful refill and "done" message leave it (`Wallpaper.HolderRefill`). The holder's own pop and unlock, other callers, and any interleaving are not modelled. A holder whose refill fails publishes nothing, so its waiters appear through the `receiveFails` fault.
- Blocking waits and timeouts. BLPOP's 2 s wait and the 3 s receive timeout become outcomes: an empty queue and the `receiveFails` fault.
- The token bucket of `golang.org/x/time/rate`. It is a foreign library, so `Allow()` is an input of `RateLimit.Registry.RateLimit` and a limiter holds only its rate and burst.
- The ticker and goroutine of `InitRateLimiterCleanup`. `RateLimit.Registry.Sweep` is one tick.
- `RateLimit.Registry.ExpiredKeys` takes the keys in an arbitrary order, since `sync.Map.Range` order is unspecified; only the set of keys is stated.
- Time zones and formatted times in the rate limiter, which do not change the instants compared. The reply bodies and log lines are also left out.
- `uuid.New()`. The lock token is a parameter.
- Reply detail strings. An error reply keeps its status code and short error text only.
- Logging, configuration loading and the gin plumbing: `setupRouter`, `main`, `initRedis`, `initOSS` and server shutdown.
- The `getWallpapers` and `deleteWallpaper` endpoints. They are outside the modelled core; the list edits they call are modelled.
- OSS SDK calls: ListObjects, PutObject, DeleteObject and opening the uploaded file. Listing is a given sequence of page answers. Upload and delete succeed or fail by fault flags. `Wallpaper.DeleteFromOSS` returns the key it asks OSS to delete together with the outcome. The requests of both listing loops are recorded as `Oss.ListRequest` values.
- Oss.Ends: the listing is a finite sequence of answers that ends with a failure or a last page. The source loops forever if the bucket answers truncated pages without end, and the model does not cover that.
- Handlers.Upload: the form's files are always a sequence. A POST that passes the password and device checks without a multipart body leaves `MultipartForm` nil, so `cmd/server/main.go:451` dereferences nil and gin's Recovery middleware answers 500. That path is not modelled.
- Text.ToLower: lower-cases ASCII letters only, whereas Go's `strings.ToLower` follows Unicode.
- Text.Ext: models `filepath.Ext` on '/'-separated paths only.
- The duplicate `stringSliceToInterfaceSlice` in `cmd/server/main.go:144-150` is the same function as in the service. Both are modelled by `Wallpaper.StringSliceToInterfaceSlice`.
- Replies of Redis commands that the source ignores, such as the LPUSH length and the unlock script's reply, are returned by the `Client` methods but not used.
- The OSS event function's Redis connection and exceptions: every SADD and SREM is assumed to reach the server. The bucket name it reads is unused by the source and is ignored here.
- The Python function keeps Redis sets on the keys "wallpaper:pc" and "wallpaper:mobile", which the Go service uses as lists. Each side is modelled on its own, and the clash between them is not.
