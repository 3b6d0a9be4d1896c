/**
 * The decisions of the two wallpaper endpoints: which reply a draw turns
 * into, and the checks and per-file steps of a batch upload. A reply is the
 * status code and body the endpoint sends; the framework plumbing is not
 * modelled.
 */
module Handlers {
  import opened Wrappers
  import opened Text
  import opened Redis
  import opened Wallpaper

  /** The payload of a success reply: nothing, one URL, or a list of URLs. */
  datatype Data = NoData | OneUrl(url: string) | Urls(urls: seq<string>)

  datatype Reply =
    | ErrorReply(code: int, error: string)       // JSON error body with that status
    | SuccessReply(message: string, data: Data)  // 200 with a JSON body
    | TextReply(body: string)                    // 200 with a plain-text body
    | RedirectReply(location: string)            // 302 to `location`

  function Status(reply: Reply): (code: int)
    ensures reply.ErrorReply? ==> code == reply.code
    ensures reply.SuccessReply? || reply.TextReply? ==> code == 200
    ensures reply.RedirectReply? ==> code == 302
  {
    match reply
    case ErrorReply(code, _) => code
    case SuccessReply(_, _) => 200
    case TextReply(_) => 200
    case RedirectReply(_) => 302
  }

  // ---------------------------------------------------------------------
  // handleWallpaper

  /** The absolute image address: "<base>/<device>/<name>". */
  function ImageUrl(baseURL: string, deviceType: string, filename: string): string {
    baseURL + "/" + deviceType + "/" + filename
  }

  /** What a drawn name (or a failed draw) becomes, by the requested `dataType`. */
  function WallpaperReply(deviceType: string, dataType: string, baseURL: string, drawn: Result<string, Failure>): Reply
  {
    match drawn
    case Err(_) => ErrorReply(500, "server error")
    case Ok(filename) =>
      if filename == "" then ErrorReply(404, "no wallpaper found")
      else
        var imageURL := ImageUrl(baseURL, deviceType, filename);
        if dataType == "json" then SuccessReply("Wallpaper URL retrieved successfully", OneUrl(imageURL))
        else if dataType == "url" then TextReply(imageURL)
        else RedirectReply(imageURL)
  }

  method HandleWallpaper(client: Client, deviceType: string, dataType: string, baseURL: string,
                         token: string, now: int, f: DrawFaults)
    returns (reply: Reply)
    requires client.Valid()
    modifies client
    ensures client.Valid()
    ensures !ValidateDeviceType(deviceType) ==>
      reply == ErrorReply(400, "invalid device type") && client.db == old(client.db)
    ensures ValidateDeviceType(deviceType) ==>
      var (drawn, db') := Draw(old(client.db), deviceType, token, now, f);
      client.db == db' && reply == WallpaperReply(deviceType, dataType, baseURL, drawn)
  {
    if !ValidateDeviceType(deviceType) {
      return ErrorReply(400, "invalid device type");
    }
    var filename := GetRandomWallpaper(client, deviceType, token, now, f);
    if filename.Err? {
      return ErrorReply(500, "server error");
    }
    if filename.value == "" {
      return ErrorReply(404, "no wallpaper found");
    }
    var imageURL := ImageUrl(baseURL, deviceType, filename.value);
    if dataType == "json" {
      return SuccessReply("Wallpaper URL retrieved successfully", OneUrl(imageURL));
    } else if dataType == "url" {
      return TextReply(imageURL);
    }
    reply := RedirectReply(imageURL);
  }

  /**
   * A failed draw is a 500 and an empty name a 404; any other name is sent
   * as "<base>/<device>/<name>" -- the object's address, whose last path
   * element is the name -- in JSON for "json", as plain text for "url",
   * and as a 302 for every other `dataType`.
   */
  lemma WallpaperReplyCases(deviceType: string, dataType: string, baseURL: string, drawn: Result<string, Failure>)
    ensures var reply := WallpaperReply(deviceType, dataType, baseURL, drawn);
      && (Status(reply) == 500 <==> drawn.Err?)
      && (Status(reply) == 404 <==> drawn == Ok(""))
      && (drawn.Ok? && drawn.value != "" ==>
            var url := ImageUrl(baseURL, deviceType, drawn.value);
            && url == ObjectUrl(baseURL, ObjectPath(deviceType, drawn.value))
            && ('/' !in drawn.value ==> AfterLastSlash(url) == drawn.value)
            && (dataType == "json" <==> reply == SuccessReply("Wallpaper URL retrieved successfully", OneUrl(url)))
            && (dataType == "url" <==> reply == TextReply(url))
            && (dataType != "json" && dataType != "url" <==> reply == RedirectReply(url)))
  {
    if drawn.Ok? && drawn.value != "" {
      ImageUrlAddressesObject(baseURL, deviceType, drawn.value);
    }
  }

  /** The address sent for a name is its object's URL, and its last path element is the name. */
  lemma ImageUrlAddressesObject(baseURL: string, deviceType: string, filename: string)
    ensures ImageUrl(baseURL, deviceType, filename) == ObjectUrl(baseURL, ObjectPath(deviceType, filename))
    ensures '/' !in filename ==> AfterLastSlash(ImageUrl(baseURL, deviceType, filename)) == filename
  {
    if '/' !in filename {
      AfterLastSlashOfJoin(baseURL + "/" + deviceType, filename);
    }
  }

  /**
   * End to end: with a non-empty queue and no failures, a "url" request
   * answers 200 with the address of the queue's head and consumes that head.
   */
  lemma ServesHeadOfQueue(db: Db, deviceType: string, baseURL: string, token: string, now: int)
    requires db.Valid() && ValidateDeviceType(deviceType)
    requires db.List(CacheKey(deviceType)) != [] && db.List(CacheKey(deviceType))[0] != ""
    ensures var (drawn, db') := Draw(db, deviceType, token, now, NoDrawFaults);
      var queue := db.List(CacheKey(deviceType));
      && WallpaperReply(deviceType, "url", baseURL, drawn) == TextReply(ImageUrl(baseURL, deviceType, queue[0]))
      && db'.List(CacheKey(deviceType)) == queue[1..]
  {
    ExistsIffNonEmpty(db, CacheKey(deviceType));
    DrawFromFilledQueue(db, deviceType, token, now, NoDrawFaults);
  }

  // ---------------------------------------------------------------------
  // uploadWallpapers

  /** One part of the upload form, with the failures of the calls made for it. */
  datatype UploadedFile = UploadedFile(
    filename: string,
    openFails: bool, putFails: bool,
    sourceRemFails: bool, sourcePushFails: bool,
    queueRemFails: bool, queuePushFails: bool)

  /** At most this many files per request. */
  const MaxFiles := 5

  /** The request checks in order: password, device type, number of files; then the files one by one. */
  function Upload(db: Db, password: string, expected: string, deviceType: string, baseURL: string,
                  files: seq<UploadedFile>): (Reply, Db)
  {
    if password != expected then (ErrorReply(400, "invalid password"), db)
    else if !ValidateDeviceType(deviceType) then (ErrorReply(400, "invalid device type"), db)
    else if |files| == 0 then (ErrorReply(400, "No files uploaded"), db)
    else if |files| > MaxFiles then (ErrorReply(400, "Too many files uploaded"), db)
    else UploadFrom(db, deviceType, baseURL, files, [])
  }

  /**
   * One file: the image check, the object write, the add to the source
   * list and the add to the queue; the file's URL, or the reply of the
   * first step that failed together with the writes made before it.
   */
  function UploadStep(db: Db, deviceType: string, baseURL: string, file: UploadedFile): (Result<string, Reply>, Db)
  {
    if !IsImageFile(file.filename) then (Err(ErrorReply(400, "Invalid file type")), db)
    else
      match UploadToOSS(baseURL, deviceType, file.filename, file.openFails, file.putFails)
      case Err(_) => (Err(ErrorReply(500, "Failed to upload image")), db)
      case Ok(ossFileURL) =>
        var (r1, db1) := AddTo(db, SourceKey(deviceType), file.filename, file.sourceRemFails, file.sourcePushFails);
        if r1.Fail? then (Err(ErrorReply(500, "Failed to update wallpaper cache")), db1)
        else
          var (r2, db2) := AddTo(db1, CacheKey(deviceType), file.filename, file.queueRemFails, file.queuePushFails);
          if r2.Fail? then (Err(ErrorReply(500, "Failed to update random wallpaper cache")), db2)
          else (Ok(ossFileURL), db2)
  }

  /** The files in turn; the first failure answers at once, with the earlier files' writes kept. */
  function UploadFrom(db: Db, deviceType: string, baseURL: string, files: seq<UploadedFile>, uploaded: seq<string>)
    : (Reply, Db)
    decreases |files|
  {
    if files == [] then (SuccessReply("Files uploaded successfully", Urls(uploaded)), db)
    else
      var (r, db') := UploadStep(db, deviceType, baseURL, files[0]);
      if r.Err? then (r.error, db')
      else UploadFrom(db', deviceType, baseURL, files[1..], uploaded + [r.value])
  }

  method UploadWallpapers(client: Client, password: string, expected: string, deviceType: string, baseURL: string,
                          files: seq<UploadedFile>)
    returns (reply: Reply)
    requires client.Valid()
    modifies client
    ensures client.Valid()
    ensures (reply, client.db) == Upload(old(client.db), password, expected, deviceType, baseURL, files)
  {
    if password != expected {
      return ErrorReply(400, "invalid password");
    }
    if !ValidateDeviceType(deviceType) {
      return ErrorReply(400, "invalid device type");
    }
    if |files| == 0 {
      return ErrorReply(400, "No files uploaded");
    } else if |files| > MaxFiles {
      return ErrorReply(400, "Too many files uploaded");
    }
    var uploadedFiles: seq<string> := [];
    for i := 0 to |files|
      invariant client.Valid()
      invariant UploadFrom(client.db, deviceType, baseURL, files[i..], uploadedFiles)
             == UploadFrom(old(client.db), deviceType, baseURL, files, [])
    {
      var file := files[i];
      assert files[i..][0] == file && files[i..][1..] == files[i + 1..];
      if !IsImageFile(file.filename) {
        return ErrorReply(400, "Invalid file type");
      }
      var ossFileURL := UploadToOSS(baseURL, deviceType, file.filename, file.openFails, file.putFails);
      if ossFileURL.Err? {
        return ErrorReply(500, "Failed to upload image");
      }
      var added := AddToWallpaperCache(client, file.filename, deviceType, file.sourceRemFails, file.sourcePushFails);
      if added.Fail? {
        return ErrorReply(500, "Failed to update wallpaper cache");
      }
      added := AddToRandomWallpaperCache(client, file.filename, deviceType, file.queueRemFails, file.queuePushFails);
      if added.Fail? {
        return ErrorReply(500, "Failed to update random wallpaper cache");
      }
      uploadedFiles := uploadedFiles + [ossFileURL.value];
    }
    reply := SuccessReply("Files uploaded successfully", Urls(uploadedFiles));
  }

  /**
   * The request checks come first and in order -- password, device type,
   * then a count of 1 to 5 files -- and a request failing one of them
   * writes nothing.
   */
  lemma UploadChecksFirst(db: Db, password: string, expected: string, deviceType: string, baseURL: string,
                          files: seq<UploadedFile>)
    ensures var (reply, db') := Upload(db, password, expected, deviceType, baseURL, files);
      && (password != expected ==> reply == ErrorReply(400, "invalid password"))
      && (password == expected && !ValidateDeviceType(deviceType) ==> reply == ErrorReply(400, "invalid device type"))
      && (password == expected && ValidateDeviceType(deviceType) && (|files| == 0 || |files| > MaxFiles) ==>
            reply.ErrorReply? && reply.code == 400 && reply.error != "Invalid file type")
      && (password != expected || !ValidateDeviceType(deviceType) || |files| == 0 || |files| > MaxFiles ==> db' == db)
  {
  }

  function Names(files: seq<UploadedFile>): (names: set<string>)
    ensures forall i :: 0 <= i < |files| ==> files[i].filename in names
  {
    set i | 0 <= i < |files| :: files[i].filename
  }

  /**
   * Every name of `names` occurs exactly once in `after`, and every other
   * name as often as in `before`.
   */
  ghost predicate OnceEach(before: seq<string>, after: seq<string>, names: set<string>)
  {
    forall n :: multiset(after)[n] == if n in names then 1 else multiset(before)[n]
  }

  /** `after` agrees with `before` on every key other than the device's two lists. */
  ghost predicate SameOutsideDevice(before: Db, after: Db, deviceType: string)
  {
    forall k :: k != SourceKey(deviceType) && k != CacheKey(deviceType) ==> after.SameAt(before, k)
  }

  lemma SameOutsideDeviceCompose(a: Db, b: Db, c: Db, deviceType: string)
    requires SameOutsideDevice(a, b, deviceType) && SameOutsideDevice(b, c, deviceType)
    ensures SameOutsideDevice(a, c, deviceType)
  {
    forall k | k != SourceKey(deviceType) && k != CacheKey(deviceType)
      ensures c.SameAt(a, k)
    {
      assert b.SameAt(a, k) && c.SameAt(b, k);
    }
  }

  lemma OnceEachCompose(a: seq<string>, b: seq<string>, c: seq<string>, first: set<string>, second: set<string>)
    requires OnceEach(a, b, first) && OnceEach(b, c, second)
    ensures OnceEach(a, c, first + second)
  {
    forall n
      ensures multiset(c)[n] == if n in first + second then 1 else multiset(a)[n]
    {
      assert multiset(c)[n] == if n in second then 1 else multiset(b)[n];
      assert multiset(b)[n] == if n in first then 1 else multiset(a)[n];
    }
  }

  /**
   * A file that went through was an image and was written under its URL;
   * both lists of the device end with exactly one copy of its name, every
   * other name keeps its number of copies, and no other key changes.
   */
  lemma UploadStepStoresFile(db: Db, deviceType: string, baseURL: string, file: UploadedFile)
    requires db.Valid()
    ensures var (r, db2) := UploadStep(db, deviceType, baseURL, file);
      r.Ok? ==>
        && IsImageFile(file.filename)
        && r.value == ObjectUrl(baseURL, ObjectPath(deviceType, file.filename))
        && db2.Valid()
        && OnceEach(db.List(SourceKey(deviceType)), db2.List(SourceKey(deviceType)), {file.filename})
        && OnceEach(db.List(CacheKey(deviceType)), db2.List(CacheKey(deviceType)), {file.filename})
        && SameOutsideDevice(db, db2, deviceType)
  {
    if UploadStep(db, deviceType, baseURL, file).0.Ok? {
      SameDeviceKeysDistinct(deviceType);
      AddLeavesOneCopyAtHead(db, SourceKey(deviceType), file.filename);
      var (_, db1) := AddTo(db, SourceKey(deviceType), file.filename, false, false);
      AddLeavesOneCopyAtHead(db1, CacheKey(deviceType), file.filename);
    }
  }

  /** The names of the files, first one apart. */
  lemma NamesCons(files: seq<UploadedFile>)
    requires files != []
    ensures Names(files) == {files[0].filename} + Names(files[1..])
  {
    forall n | n in Names(files) ensures n in {files[0].filename} + Names(files[1..]) {
      var i :| 0 <= i < |files| && files[i].filename == n;
      if i > 0 {
        assert files[1..][i - 1] == files[i];
      }
    }
  }

  /** The address of each file's object, in the order of the files. */
  function FileUrls(deviceType: string, baseURL: string, files: seq<UploadedFile>): (urls: seq<string>)
  {
    if files == [] then []
    else [ObjectUrl(baseURL, ObjectPath(deviceType, files[0].filename))] + FileUrls(deviceType, baseURL, files[1..])
  }

  lemma ConcatAssoc(a: seq<string>, b: seq<string>, c: seq<string>)
    ensures a + (b + c) == (a + b) + c
  {
  }

  /** A file that went through passed the image check and is answered with its object's URL. */
  lemma UploadStepAnswersUrl(db: Db, deviceType: string, baseURL: string, file: UploadedFile)
    ensures var r := UploadStep(db, deviceType, baseURL, file).0;
      r.Ok? ==> IsImageFile(file.filename) && r.value == ObjectUrl(baseURL, ObjectPath(deviceType, file.filename))
  {
  }

  /** Every file's name passes the image check. */
  ghost predicate AllImages(files: seq<UploadedFile>)
  {
    forall i :: 0 <= i < |files| ==> IsImageFile(files[i].filename)
  }

  lemma AllImagesCons(files: seq<UploadedFile>)
    requires files != [] && IsImageFile(files[0].filename) && AllImages(files[1..])
    ensures AllImages(files)
  {
    forall i | 1 <= i < |files|
      ensures IsImageFile(files[i].filename)
    {
      assert files[1..][i - 1] == files[i];
    }
  }

  /** A successful upload checked every file's name, and each passed as an image. */
  lemma {:induction false} UploadSuccessChecksEveryFile(db: Db, deviceType: string, baseURL: string,
                                                      files: seq<UploadedFile>, uploaded: seq<string>)
    ensures UploadFrom(db, deviceType, baseURL, files, uploaded).0.SuccessReply? ==> AllImages(files)
    decreases |files|
  {
    var res := UploadFrom(db, deviceType, baseURL, files, uploaded);
    if files != [] && res.0.SuccessReply? {
      var file := files[0];
      var step := UploadStep(db, deviceType, baseURL, file);
      assert step.0.Ok?;
      assert res == UploadFrom(step.1, deviceType, baseURL, files[1..], uploaded + [step.0.value]);
      UploadStepAnswersUrl(db, deviceType, baseURL, file);
      UploadSuccessChecksEveryFile(step.1, deviceType, baseURL, files[1..], uploaded + [step.0.value]);
      AllImagesCons(files);
    }
  }

  /**
   * The reply of a successful upload lists the URLs of the files before it
   * followed by the URL of each file's object, in the order of the files.
   */
  lemma {:induction false} UploadSuccessListsEveryUrl(db: Db, deviceType: string, baseURL: string,
                                                    files: seq<UploadedFile>, uploaded: seq<string>)
    ensures var reply := UploadFrom(db, deviceType, baseURL, files, uploaded).0;
      reply.SuccessReply? ==> reply.data == Urls(uploaded + FileUrls(deviceType, baseURL, files))
    decreases |files|
  {
    var res := UploadFrom(db, deviceType, baseURL, files, uploaded);
    if files == [] {
    } else if res.0.SuccessReply? {
      var file := files[0];
      var step := UploadStep(db, deviceType, baseURL, file);
      assert step.0.Ok?;
      assert res == UploadFrom(step.1, deviceType, baseURL, files[1..], uploaded + [step.0.value]);
      UploadStepAnswersUrl(db, deviceType, baseURL, file);
      UploadSuccessListsEveryUrl(step.1, deviceType, baseURL, files[1..], uploaded + [step.0.value]);
      var url, rest := step.0.value, FileUrls(deviceType, baseURL, files[1..]);
      assert FileUrls(deviceType, baseURL, files) == [url] + rest;
      ConcatAssoc(uploaded, [url], rest);
    }
  }

  /**
   * A successful upload wrote every file: each name is in both lists of the
   * device exactly once, other names keep their number of copies, and no
   * other key changes.
   */
  lemma {:induction false} UploadSuccessStoresEveryFile(db: Db, deviceType: string, baseURL: string,
                                                      files: seq<UploadedFile>, uploaded: seq<string>)
    requires db.Valid()
    ensures var (reply, db') := UploadFrom(db, deviceType, baseURL, files, uploaded);
      reply.SuccessReply? ==>
        && OnceEach(db.List(SourceKey(deviceType)), db'.List(SourceKey(deviceType)), Names(files))
        && OnceEach(db.List(CacheKey(deviceType)), db'.List(CacheKey(deviceType)), Names(files))
        && SameOutsideDevice(db, db', deviceType)
    decreases |files|
  {
    var res := UploadFrom(db, deviceType, baseURL, files, uploaded);
    var db' := res.1;
    if files == [] {
      assert Names(files) == {};
    } else if res.0.SuccessReply? {
      var file := files[0];
      var step := UploadStep(db, deviceType, baseURL, file);
      var db2 := step.1;
      assert step.0.Ok?;
      assert res == UploadFrom(db2, deviceType, baseURL, files[1..], uploaded + [step.0.value]);
      UploadStepStoresFile(db, deviceType, baseURL, file);
      UploadSuccessStoresEveryFile(db2, deviceType, baseURL, files[1..], uploaded + [step.0.value]);
      NamesCons(files);
      OnceEachCompose(db.List(SourceKey(deviceType)), db2.List(SourceKey(deviceType)), db'.List(SourceKey(deviceType)),
                      {file.filename}, Names(files[1..]));
      OnceEachCompose(db.List(CacheKey(deviceType)), db2.List(CacheKey(deviceType)), db'.List(CacheKey(deviceType)),
                      {file.filename}, Names(files[1..]));
      SameOutsideDeviceCompose(db, db2, db', deviceType);
    }
  }

  lemma FilesSplit(done: seq<UploadedFile>, bad: UploadedFile, rest: seq<UploadedFile>)
    requires done != []
    ensures (done + [bad] + rest)[0] == done[0]
    ensures (done + [bad] + rest)[1..] == done[1..] + [bad] + rest
  {
  }

  /**
   * An upload is not atomic: when a file fails the image check after
   * earlier files went through, the reply is a 400 and the earlier files'
   * writes stay in the store.
   */
  lemma {:induction false} UploadKeepsEarlierFiles(db: Db, deviceType: string, baseURL: string,
                                                 done: seq<UploadedFile>, bad: UploadedFile, rest: seq<UploadedFile>,
                                                 uploaded: seq<string>)
    requires UploadFrom(db, deviceType, baseURL, done, uploaded).0.SuccessReply?
    requires !IsImageFile(bad.filename)
    ensures UploadFrom(db, deviceType, baseURL, done + [bad] + rest, uploaded)
         == (ErrorReply(400, "Invalid file type"), UploadFrom(db, deviceType, baseURL, done, uploaded).1)
    decreases |done|
  {
    if done == [] {
      assert done + [bad] + rest == [bad] + rest;
    } else {
      var file := done[0];
      FilesSplit(done, bad, rest);
      var step := UploadStep(db, deviceType, baseURL, file);
      if step.0.Ok? {
        UploadKeepsEarlierFiles(step.1, deviceType, baseURL, done[1..], bad, rest, uploaded + [step.0.value]);
      }
    }
  }
}
