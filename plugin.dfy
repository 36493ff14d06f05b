/**
 * The plugin's message handlers: the `jrys` flow that draws a poster and
 * keeps each user's last background on record, the `jrys_last` command that
 * re-sends that background, and the keyword trigger. The two resource
 * fetches run concurrently in the original; here their results (or the fact
 * that they raised) are inputs.
 */
module Plugin {
  import opened Wrappers
  import opened Text
  import opened FileSystem
  import opened FortuneTable
  import opened Selection
  import opened Resources
  import opened Layout
  import opened Painter

  const BackgroundFailed: string := "获取背景图片失败，请稍后再试～"
  const AvatarFailed: string := "获取头像失败，请稍后再试～"
  const RenderFailed: string := "生成图片失败，请稍后再试～"
  const NotGeneratedYet: string := "你还没有生成过今日运势哦，先发送 jrys 生成一张吧！"
  const LastImageGone: string := "找不到上一次生成的原图了，可能已被清理，请重新生成～"

  /** What a handler yields: a text message or an image file. */
  datatype Reply = Text(msg: string) | Image(path: Path)

  /** The outcome of an awaited call under `gather(..., return_exceptions=True)`. */
  datatype Got<T> = Raised | Returned(value: T)

  /** A chat event; the command handler tags it so the keyword handler skips it. */
  class Event {
    const senderId: string
    const messageStr: string
    var processed: bool

    constructor(senderId: string, messageStr: string)
      ensures this.senderId == senderId && this.messageStr == messageStr && !processed
    {
      this.senderId := senderId;
      this.messageStr := messageStr;
      processed := false;
    }
  }

  // ------------------------------------------------------------ the table

  /** The table `_load_jrys_data` hands out when it has to read the file. */
  function FileDoc(file: Option<Stored>): Doc {
    if file.Some? && file.value.Json? then file.value.doc else EmptyDoc
  }

  /** `jrys.json` once `_load_jrys_data` has run: a missing file has been created as `{}`. */
  function FileAfterLoad(loaded: bool, file: Option<Stored>): Option<Stored> {
    if loaded || file.Some? then file else Some(Json(EmptyDoc))
  }

  /** Whether a table is loaded once `_load_jrys_data` has run: it was already, or the file (created if missing) parses. */
  function FlagAfterLoad(loaded: bool, file: Option<Stored>): bool {
    loaded || file.None? || file.value.Json?
  }

  /** The table `_load_jrys_data` hands out from this state of the resource manager. */
  ghost function TableAfterLoad(r: ResourceManager): Doc
    reads r, r.jrysData
    requires r.Valid()
  {
    if r.isDataLoaded then r.jrysData.doc else FileDoc(r.jrysFile)
  }

  /**
   * The table after `_user_last_images[user_id]` is set to the new record,
   * the object being created first when it is missing; `None` when the
   * value under that key is not an object, where the update raises.
   */
  function Recorded(doc: Doc, userId: string, path: Path, shouldCleanup: bool): Option<Doc>
    requires WellFormed(doc)
  {
    var v := if LastImagesKey in doc.values then doc.values[LastImagesKey] else Records(map[]);
    if !v.Records? then None
    else Some(Set(doc, LastImagesKey, Records(v.records[userId := LastImage(path, shouldCleanup)])))
  }

  /**
   * The previous background that the update deletes: only when it was marked
   * for cleanup, has a path, differs from the new background and still exists.
   */
  function Stale(doc: Doc, userId: string, path: Path, files: map<Path, FileInfo>): set<Path> {
    if LastImagesKey in doc.values && doc.values[LastImagesKey].Records? && userId in doc.values[LastImagesKey].records then
      var last := doc.values[LastImagesKey].records[userId];
      if last.shouldCleanup && last.path != "" && last.path != path && last.path in files then {last.path} else {}
    else {}
  }

  /**
   * `user_id in v` for a list of fortune objects: a string never equals an
   * object, so the user is never found.
   */
  predicate ObjectsOnly(v: Value) {
    v.Entries? && forall e :: e in v.entries ==> e.Fortune?
  }

  /**
   * The reply of `jrys_last`. A list of objects does not contain the user,
   * who is told to generate a poster first. `None` (the handler raises)
   * for any other value that is not an object.
   */
  function LastLookup(doc: Doc, userId: string, files: map<Path, FileInfo>): Option<Reply> {
    var v := if LastImagesKey in doc.values then doc.values[LastImagesKey] else Records(map[]);
    if ObjectsOnly(v) then Some(Text(NotGeneratedYet))
    else if !v.Records? then None
    else if userId !in v.records then Some(Text(NotGeneratedYet))
    else
      var path := v.records[userId].path;
      if path == "" || path !in files then Some(Text(LastImageGone)) else Some(Image(path))
  }

  /** The files left once the `finally` block has run. */
  function Finally(files: map<Path, FileInfo>, temp: Option<Path>, background: Path, cleanup: bool): map<Path, FileInfo> {
    var afterTemp := if temp.Some? then files - {temp.value} else files;
    if cleanup && background != "" then afterTemp - {background} else afterTemp
  }

  /**
   * The rendered poster, a file that did not exist before, is gone once the
   * `finally` block has run, and it never counts as a stale background.
   */
  lemma FinallyDropsNewFile(doc: Doc, userId: string, path: Path, files: map<Path, FileInfo>, p: Path, info: FileInfo, cleanup: bool)
    requires p !in files
    ensures Finally(files[p := info], Some(p), path, cleanup) == Finally(files, Some(p), path, cleanup)
    ensures Finally(files[p := info] - Stale(doc, userId, path, files[p := info]), Some(p), path, false)
         == Finally(files - Stale(doc, userId, path, files), Some(p), path, false)
  {
    assert files[p := info] - {p} == files;
    var st := Stale(doc, userId, path, files[p := info]);
    assert st - {p} == Stale(doc, userId, path, files);
    assert (files[p := info] - st) - {p} == (files - Stale(doc, userId, path, files)) - {p};
  }

  /**
   * What the flow leaves once a background is in hand and the avatar did not
   * raise: with no poster, one error and the `finally` block; with a poster,
   * the image, then either the recorded table, saved to `jrys.json` (or the
   * file emptied when the table was never loaded from it), with the stale
   * background deleted and this one kept, or (where recording raises) an
   * error after the image and the `finally` block with the cleanup flag as
   * it was. Only the recording branch changes the table or the file. The
   * rendered JPEG never survives.
   */
  ghost predicate RenderOutcome(cfg: PainterConfig, width36: Measure, isImage: Blob -> bool, avatarPath: Option<Path>,
                                bg: Path, flag: bool, userId: string, today: Date, draws: Draws, tempName: Path,
                                doc0: Doc, files0: map<Path, FileInfo>, file0: Option<Stored>, loaded: bool,
                                replies: seq<Reply>, doc1: Doc, files1: map<Path, FileInfo>, file1: Option<Stored>)
    requires WellFormed(doc0) && ValidDate(today) && IsDraws(draws)
  {
    var poster := Compose(cfg, width36, files0, isImage, avatarPath, bg, doc0, today, draws);
    if poster.None? then
      && replies == [Text(RenderFailed)]
      && doc1 == doc0 && file1 == file0
      && files1 == Finally(files0, None, bg, flag)
    else
      var rec := Recorded(doc0, userId, bg, flag);
      if rec.Some? then
        && replies == [Image(tempName)]
        && doc1 == rec.value
        && file1 == Some(if loaded then Json(doc1) else Corrupt)
        && files1 == Finally(files0 - Stale(doc0, userId, bg, files0), Some(tempName), bg, false)
      else
        && replies == [Image(tempName), Text(RenderFailed)]
        && doc1 == doc0 && file1 == file0
        && files1 == Finally(files0, Some(tempName), bg, flag)
  }
  /**
   * What `jrys` leaves, from the table `doc0` and the file `file0` that
   * loading gave and the disk `files0`: a failed background fetch answers
   * with one error and changes nothing; a failed avatar fetch answers with
   * one error and runs the `finally` block; otherwise `RenderOutcome`.
   */
  ghost predicate JrysOutcome(cfg: PainterConfig, width36: Measure, isImage: Blob -> bool, userId: string,
                              avatar: Got<Option<Path>>, background: Got<Option<(Path, bool)>>,
                              today: Date, draws: Draws, tempName: Path,
                              doc0: Doc, file0: Option<Stored>, files0: map<Path, FileInfo>, loaded: bool,
                              replies: seq<Reply>, doc1: Doc, files1: map<Path, FileInfo>, file1: Option<Stored>)
    requires WellFormed(doc0) && ValidDate(today) && IsDraws(draws)
  {
    if background.Raised? || background.value.None? then
      && replies == [Text(BackgroundFailed)]
      && doc1 == doc0 && file1 == file0 && files1 == files0
    else
      var (bg, flag) := background.value.value;
      if avatar.Raised? then
        && replies == [Text(AvatarFailed)]
        && doc1 == doc0 && file1 == file0 && files1 == Finally(files0, None, bg, flag)
      else
        RenderOutcome(cfg, width36, isImage, avatar.value, bg, flag, userId, today, draws, tempName,
                      doc0, files0, file0, loaded, replies, doc1, files1, file1)
  }


  // ---------------------------------------------------------------- records

  /**
   * Recording succeeds unless `_user_last_images` holds something other than
   * an object. The user then has exactly the new record, every other user's
   * record is kept, and nothing else in the table changes.
   */
  lemma RecordedSpec(doc: Doc, userId: string, path: Path, shouldCleanup: bool)
    requires WellFormed(doc)
    ensures var rec := Recorded(doc, userId, path, shouldCleanup);
      && (rec.Some? <==> LastImagesKey !in doc.values || doc.values[LastImagesKey].Records?)
      && (rec.Some? ==>
        && WellFormed(rec.value)
        && LastImagesKey in rec.value.values && rec.value.values[LastImagesKey].Records?
        && var after := rec.value.values[LastImagesKey].records;
        && after[userId] == LastImage(path, shouldCleanup)
        && (forall u :: u != userId ==>
              (u in after <==> LastImagesKey in doc.values && u in doc.values[LastImagesKey].records)
              && (u in after ==> after[u] == doc.values[LastImagesKey].records[u]))
        && (forall k :: k != LastImagesKey ==>
              (k in rec.value.values <==> k in doc.values) && (k in doc.values ==> rec.value.values[k] == doc.values[k])))
  {
  }

  /** `[k for k in keys if not k.startswith("_")]` splits over concatenation. */
  lemma {:induction false} CandidateKeysAppend(a: seq<string>, b: seq<string>)
    ensures CandidateKeys(a + b) == CandidateKeys(a) + CandidateKeys(b)
  {
    if a == [] {
      assert a + b == b;
    } else {
      assert (a + b)[0] == a[0] && (a + b)[1..] == a[1..] + b;
      CandidateKeysAppend(a[1..], b);
    }
  }

  /**
   * Recording a background never changes anyone's fortune: the record lives
   * under a key that starts with '_', so the candidates, their weights and
   * their entries are what they were.
   */
  lemma RecordingKeepsSelection(doc: Doc, userId: string, path: Path, shouldCleanup: bool,
                                cfg: SelectionConfig, today: Date, draws: Draws)
    requires WellFormed(doc) && ValidDate(today) && IsDraws(draws)
    requires Recorded(doc, userId, path, shouldCleanup).Some?
    ensures var rec := Recorded(doc, userId, path, shouldCleanup).value;
      WellFormed(rec) && Select(rec, cfg, today, draws) == Select(doc, cfg, today, draws)
  {
    var rec := Recorded(doc, userId, path, shouldCleanup).value;
    LastImagesOnlyKeepsSelection(doc, rec, cfg, today, draws);
  }

  /** A table that differs at most under `_user_last_images` yields the same fortune. */
  lemma LastImagesOnlyKeepsSelection(doc: Doc, rec: Doc, cfg: SelectionConfig, today: Date, draws: Draws)
    requires WellFormed(doc) && WellFormed(rec) && ValidDate(today) && IsDraws(draws)
    requires rec.keys == doc.keys || rec.keys == doc.keys + [LastImagesKey]
    requires forall k :: k != LastImagesKey && k in doc.values ==> k in rec.values && rec.values[k] == doc.values[k]
    ensures Select(rec, cfg, today, draws) == Select(doc, cfg, today, draws)
  {
    RecordingKeepsCandidates(doc, rec);
    if doc.keys == [] {
      NoCandidateNoSelection(rec, cfg, today, draws);
    } else {
      var rates := RatesFor(cfg, MonthDay(today));
      SameCandidatesSameKey(doc, rec, rates, draws.unit);
      DrawnKeyIsNotLastImages(doc, rates, draws.unit);
      SameDrawSameSelection(doc, rec, cfg, today, draws);
    }
  }

  /** `_user_last_images` is never drawn: it starts with '_'. */
  lemma DrawnKeyIsNotLastImages(doc: Doc, rates: Rates, unit: real)
    requires WellFormed(doc)
    ensures DrawKey(doc, rates, unit).Some? ==> DrawKey(doc, rates, unit).value.key != LastImagesKey
  {
    assert StartsWith(LastImagesKey, "_");
  }

  /** A table without a candidate key yields no fortune. */
  lemma NoCandidateNoSelection(doc: Doc, cfg: SelectionConfig, today: Date, draws: Draws)
    requires WellFormed(doc) && ValidDate(today) && IsDraws(draws)
    requires CandidateKeys(doc.keys) == []
    ensures Select(doc, cfg, today, draws) == None
  {
    assert DrawKey(doc, RatesFor(cfg, MonthDay(today)), draws.unit) == None;
  }

  /** Two non-empty tables that draw the same key and hold the same list under it yield the same fortune. */
  lemma SameDrawSameSelection(d1: Doc, d2: Doc, cfg: SelectionConfig, today: Date, draws: Draws)
    requires WellFormed(d1) && WellFormed(d2) && ValidDate(today) && IsDraws(draws)
    requires d1.keys != [] && d2.keys != []
    requires var rates := RatesFor(cfg, MonthDay(today));
      && DrawKey(d1, rates, draws.unit) == DrawKey(d2, rates, draws.unit)
      && (DrawKey(d1, rates, draws.unit).Some? ==>
            var k := DrawKey(d1, rates, draws.unit).value.key;
            k in d2.values && d1.values[k] == d2.values[k])
    ensures Select(d1, cfg, today, draws) == Select(d2, cfg, today, draws)
  {
  }

  /** Setting `_user_last_images` leaves the candidate keys as they were. */
  lemma RecordingKeepsCandidates(doc: Doc, rec: Doc)
    requires rec.keys == doc.keys || rec.keys == doc.keys + [LastImagesKey]
    ensures CandidateKeys(rec.keys) == CandidateKeys(doc.keys)
  {
    if rec.keys != doc.keys {
      CandidateKeysAppend(doc.keys, [LastImagesKey]);
      assert StartsWith(LastImagesKey, "_");
      assert CandidateKeys([LastImagesKey]) == [];
    }
  }

  /** The drawn key depends on the table only through its candidate keys. */
  lemma SameCandidatesSameKey(d1: Doc, d2: Doc, rates: Rates, unit: real)
    requires WellFormed(d1) && WellFormed(d2) && CandidateKeys(d1.keys) == CandidateKeys(d2.keys)
    ensures DrawKey(d1, rates, unit) == DrawKey(d2, rates, unit)
  {
  }

  /** After a recorded run, `jrys_last` sends that background while the file exists. */
  lemma LastSendsRecorded(doc: Doc, userId: string, path: Path, shouldCleanup: bool, files: map<Path, FileInfo>)
    requires WellFormed(doc) && Recorded(doc, userId, path, shouldCleanup).Some?
    ensures LastLookup(Recorded(doc, userId, path, shouldCleanup).value, userId, files)
         == Some(if path != "" && path in files then Image(path) else Text(LastImageGone))
  {
  }

  /**
   * A user without a record is told to generate one first: no records at
   * all, records without this user, or a list of objects in their place.
   */
  lemma LastWithoutRecord(doc: Doc, userId: string, files: map<Path, FileInfo>)
    requires || LastImagesKey !in doc.values
             || (doc.values[LastImagesKey].Records? && userId !in doc.values[LastImagesKey].records)
             || ObjectsOnly(doc.values[LastImagesKey])
    ensures LastLookup(doc, userId, files) == Some(Text(NotGeneratedYet))
  {
  }

  /**
   * The stale file is at most the user's previous background; it is never
   * the new background, and only an existing file is deleted.
   */
  lemma StaleIsPreviousEphemeral(doc: Doc, userId: string, path: Path, files: map<Path, FileInfo>)
    ensures Stale(doc, userId, path, files) <= files.Keys
    ensures path !in Stale(doc, userId, path, files)
    ensures forall p :: p in Stale(doc, userId, path, files) ==>
      && LastImagesKey in doc.values && doc.values[LastImagesKey].Records?
      && userId in doc.values[LastImagesKey].records
      && doc.values[LastImagesKey].records[userId] == LastImage(p, true) && p != ""
  {
  }

  /**
   * `jrys` then `jrys_last`: after a run that sent and recorded its poster,
   * the recorded table answers with that background, which the run kept
   * exactly when it existed.
   */
  lemma LastAnswersRecordedRun(cfg: PainterConfig, width36: Measure, isImage: Blob -> bool, avatarPath: Option<Path>,
                               bg: Path, flag: bool, userId: string, today: Date, draws: Draws, tempName: Path,
                               doc0: Doc, files0: map<Path, FileInfo>, file0: Option<Stored>, loaded: bool,
                               replies: seq<Reply>, doc1: Doc, files1: map<Path, FileInfo>, file1: Option<Stored>)
    requires WellFormed(doc0) && ValidDate(today) && IsDraws(draws)
    requires RenderOutcome(cfg, width36, isImage, avatarPath, bg, flag, userId, today, draws, tempName,
                           doc0, files0, file0, loaded, replies, doc1, files1, file1)
    requires tempName !in files0 && tempName != bg && bg != ""
    requires replies == [Image(tempName)]
    ensures LastLookup(doc1, userId, files1) == Some(if bg in files0 then Image(bg) else Text(LastImageGone))
  {
    BackgroundOwnership(cfg, width36, isImage, avatarPath, bg, flag, userId, today, draws, tempName,
                        doc0, files0, file0, loaded, replies, doc1, files1, file1);
    assert Recorded(doc0, userId, bg, flag).Some?;
    LastSendsRecorded(doc0, userId, bg, flag, files1);
  }

  /**
   * Who owns the background: once recorded it is left on disk (this call
   * deletes neither it nor, being fresh, anything but the stale file and the
   * poster); when it is not recorded and was marked for cleanup it is gone.
   * The rendered JPEG never survives.
   */
  lemma BackgroundOwnership(cfg: PainterConfig, width36: Measure, isImage: Blob -> bool, avatarPath: Option<Path>,
                            bg: Path, flag: bool, userId: string, today: Date, draws: Draws, tempName: Path,
                            doc0: Doc, files0: map<Path, FileInfo>, file0: Option<Stored>, loaded: bool,
                            replies: seq<Reply>, doc1: Doc, files1: map<Path, FileInfo>, file1: Option<Stored>)
    requires WellFormed(doc0) && ValidDate(today) && IsDraws(draws)
    requires RenderOutcome(cfg, width36, isImage, avatarPath, bg, flag, userId, today, draws, tempName,
                           doc0, files0, file0, loaded, replies, doc1, files1, file1)
    requires tempName !in files0 && tempName != bg && bg != ""
    ensures tempName !in files1
    ensures Image(tempName) in replies ==> Compose(cfg, width36, files0, isImage, avatarPath, bg, doc0, today, draws).Some?
    ensures Recorded(doc0, userId, bg, flag).Some? && Image(tempName) in replies ==> (bg in files1 <==> bg in files0)
    ensures flag && (Recorded(doc0, userId, bg, flag).None? || Image(tempName) !in replies) ==> bg !in files1
  {
    var poster := Compose(cfg, width36, files0, isImage, avatarPath, bg, doc0, today, draws);
    var rec := Recorded(doc0, userId, bg, flag);
    if poster.None? {
      assert replies == [Text(RenderFailed)];
      FinallyKeepsOrDrops(files0, None, bg, flag);
    } else if rec.Some? {
      assert replies == [Image(tempName)];
      var kept := files0 - Stale(doc0, userId, bg, files0);
      assert files1 == Finally(kept, Some(tempName), bg, false);
      StaleIsPreviousEphemeral(doc0, userId, bg, files0);
      assert bg in kept <==> bg in files0;
      FinallyKeepsOrDrops(kept, Some(tempName), bg, false);
    } else {
      assert replies == [Image(tempName), Text(RenderFailed)];
      FinallyKeepsOrDrops(files0, Some(tempName), bg, flag);
    }
  }

  /** What the `finally` block leaves of the rendered file and of the background. */
  lemma FinallyKeepsOrDrops(files: map<Path, FileInfo>, temp: Option<Path>, bg: Path, cleanup: bool)
    ensures temp.Some? ==> temp.value !in Finally(files, temp, bg, cleanup)
    ensures cleanup && bg != "" ==> bg !in Finally(files, temp, bg, cleanup)
    ensures !cleanup && (temp.None? || temp.value != bg) ==> (bg in Finally(files, temp, bg, cleanup) <==> bg in files)
  {
  }

  // ---------------------------------------------------------------- trigger

  const Keywords: set<string> := {"jrys", "今日运势", "运势"}

  /** The keyword handler runs the flow for an untagged event whose stripped text is a keyword, when enabled. */
  predicate ShouldTrigger(processed: bool, keywordEnabled: bool, messageStr: string) {
    !processed && keywordEnabled && Strip(messageStr) in Keywords
  }

  /** Whitespace around the message never decides whether it triggers. */
  lemma TriggerIgnoresPadding(processed: bool, keywordEnabled: bool, a: string, m: string, b: string)
    requires AllSpace(a) && AllSpace(b)
    ensures ShouldTrigger(processed, keywordEnabled, a + m + b) == ShouldTrigger(processed, keywordEnabled, m)
  {
    StripIgnoresPadding(a, m, b);
  }

  /** Each keyword, with any whitespace around it, triggers. */
  lemma PaddedKeywordTriggers(a: string, k: string, b: string)
    requires AllSpace(a) && AllSpace(b) && k in Keywords
    ensures ShouldTrigger(false, true, a + k + b)
  {
    TriggerIgnoresPadding(false, true, a, k, b);
    KeywordTriggers(k);
  }

  /** Each keyword triggers as it stands. */
  lemma KeywordTriggers(k: string)
    requires k in Keywords
    ensures ShouldTrigger(false, true, k)
  {
    if k == "jrys" {
      StripKeepsTrimmed("jrys");
    } else if k == "今日运势" {
      StripKeepsTrimmed("今日运势");
    } else {
      StripKeepsTrimmed("运势");
    }
  }

  /** A keyword inside a longer message does not trigger. */
  lemma LongerMessageDoesNotTrigger()
    ensures !ShouldTrigger(false, true, "jrys now")
  {
    StripKeepsTrimmed("jrys now");
  }

  // ------------------------------------------------------------- the plugin

  class JrysPlugin {
    const resources: ResourceManager
    const painter: FortunePainter
    const jrysKeywordEnabled: bool
    /** `self.jrys_data`: the table the last handler loaded. */
    var jrysData: JsonObject?

    /** The resource manager is consistent, and a table it has loaded is the one this plugin holds. */
    ghost predicate Valid()
      reads this, resources, resources.jrysData
    {
      && resources.Valid()
      && (jrysData != null && resources.isDataLoaded ==> jrysData == resources.jrysData)
    }

    constructor(resources: ResourceManager, painter: FortunePainter, keywordEnabled: Option<bool>)
      requires resources.Valid()
      ensures Valid()
      ensures this.resources == resources && this.painter == painter
      ensures jrysKeywordEnabled == keywordEnabled.GetOr(true) && jrysData == null
    {
      this.resources := resources;
      this.painter := painter;
      jrysKeywordEnabled := keywordEnabled.GetOr(true);
      jrysData := null;
    }

    /**
     * `jrys(event)`. `avatar` and `background` are what the two fetches gave;
     * `seeded`/`unseeded` the generator for the painter (see `DrawsFor`);
     * `tempName` the fresh name of the rendered JPEG.
     */
    method Jrys(userId: string, avatar: Got<Option<Path>>, background: Got<Option<(Path, bool)>>,
                today: Date, seeded: string -> Draws, unseeded: Draws,
                isImage: Blob -> bool, encode: Poster -> Blob, tempName: Path, now: real)
      returns (replies: seq<Reply>)
      requires Valid() && ValidDate(today)
      requires IsDraws(seeded(SeedFor(userId, today))) && IsDraws(unseeded)
      requires tempName !in resources.disk.files
      requires background.Returned? && background.value.Some? ==> tempName != background.value.value.0
      modifies this, resources, resources.disk, resources.jrysData
      ensures Valid() && jrysData != null && |replies| >= 1
      ensures resources.isDataLoaded ==> resources.jrysData == jrysData
      ensures resources.isDataLoaded == FlagAfterLoad(old(resources.isDataLoaded), old(resources.jrysFile)) && resources.Storage() == old(resources.Storage())
      ensures resources.isDataLoaded ==> TableAfterLoad(resources) == jrysData.doc
      ensures JrysOutcome(painter.cfg, painter.width36, isImage, userId, avatar, background, today,
                          DrawsFor(painter.cfg.selection, userId, today, seeded, unseeded), tempName,
                          old(TableAfterLoad(resources)), FileAfterLoad(old(resources.isDataLoaded), old(resources.jrysFile)),
                          old(resources.disk.files), resources.isDataLoaded,
                          replies, jrysData.doc, resources.disk.files, resources.jrysFile)
    {
      var t := resources.LoadJrysData();
      jrysData := t;
      assert t.doc == old(TableAfterLoad(resources));
      assert resources.jrysFile == FileAfterLoad(old(resources.isDataLoaded), old(resources.jrysFile));
      var draws := DrawsFor(painter.cfg.selection, userId, today, seeded, unseeded);
      replies := Respond(t, userId, avatar, background, today, draws, isImage, encode, tempName, now);
    }

    /**
     * The part of `jrys` after loading the table `t`: the two fetch failures,
     * then `RenderAndRecord`.
     */
    method Respond(t: JsonObject, userId: string, avatar: Got<Option<Path>>, background: Got<Option<(Path, bool)>>,
                   today: Date, draws: Draws, isImage: Blob -> bool, encode: Poster -> Blob, tempName: Path, now: real)
      returns (replies: seq<Reply>)
      requires resources.Valid() && WellFormed(t.doc) && ValidDate(today) && IsDraws(draws)
      requires resources.isDataLoaded ==> resources.jrysData == t
      requires tempName !in resources.disk.files
      requires background.Returned? && background.value.Some? ==> tempName != background.value.value.0
      modifies t, resources, resources.disk
      ensures resources.Valid() && |replies| >= 1
      ensures resources.isDataLoaded == old(resources.isDataLoaded) && resources.jrysData == old(resources.jrysData)
      ensures resources.Storage() == old(resources.Storage())
      ensures JrysOutcome(painter.cfg, painter.width36, isImage, userId, avatar, background, today, draws, tempName,
                          old(t.doc), old(resources.jrysFile), old(resources.disk.files), resources.isDataLoaded,
                          replies, t.doc, resources.disk.files, resources.jrysFile)
    {
      if background.Raised? || background.value.None? {
        return [Text(BackgroundFailed)];
      }
      var (backgroundPath, backgroundShouldCleanup) := background.value.value;
      if avatar.Raised? {
        replies := [Text(AvatarFailed)];
        if backgroundShouldCleanup && backgroundPath != "" && backgroundPath in resources.disk.files {
          resources.disk.RemoveIfExists(backgroundPath);
        }
        return;
      }
      replies := RenderAndRecord(t, userId, avatar.value, backgroundPath, backgroundShouldCleanup, today, draws,
                                 isImage, encode, tempName, now);
    }

    /**
     * The second half of `jrys`: render, then `Deliver`.
     */
    method RenderAndRecord(t: JsonObject, userId: string, avatarPath: Option<Path>, backgroundPath: Path,
                           shouldCleanup: bool, today: Date, draws: Draws,
                           isImage: Blob -> bool, encode: Poster -> Blob, tempName: Path, now: real)
      returns (replies: seq<Reply>)
      requires resources.Valid() && WellFormed(t.doc) && ValidDate(today) && IsDraws(draws)
      requires resources.isDataLoaded ==> resources.jrysData == t
      requires tempName !in resources.disk.files && tempName != backgroundPath
      modifies t, resources, resources.disk
      ensures resources.Valid()
      ensures resources.isDataLoaded == old(resources.isDataLoaded) && resources.jrysData == old(resources.jrysData)
      ensures resources.Storage() == old(resources.Storage())
      ensures RenderOutcome(painter.cfg, painter.width36, isImage, avatarPath, backgroundPath, shouldCleanup, userId, today, draws,
                            tempName, old(t.doc), old(resources.disk.files), old(resources.jrysFile), resources.isDataLoaded,
                            replies, t.doc, resources.disk.files, resources.jrysFile)
    {
      var tempFilePath := painter.GenerateImage(resources.disk, avatarPath, backgroundPath, t.doc, today, draws,
                                                isImage, encode, tempName, now);
      ghost var files1 := resources.disk.files;
      replies := Deliver(t, userId, tempFilePath, backgroundPath, shouldCleanup);
      if tempFilePath.Some? {
        FinallyDropsNewFile(old(t.doc), userId, backgroundPath, old(resources.disk.files), tempName, files1[tempName], shouldCleanup);
      }
    }

    /**
     * What `jrys` does with the painter's result: reply, record the
     * background, save the table, then the `finally` block.
     */
    method Deliver(t: JsonObject, userId: string, tempFilePath: Option<Path>, backgroundPath: Path, shouldCleanup: bool)
      returns (replies: seq<Reply>)
      requires resources.Valid() && WellFormed(t.doc)
      requires resources.isDataLoaded ==> resources.jrysData == t
      modifies t, resources, resources.disk
      ensures resources.Valid()
      ensures resources.isDataLoaded == old(resources.isDataLoaded) && resources.jrysData == old(resources.jrysData)
      ensures resources.Storage() == old(resources.Storage())
      ensures var files0 := old(resources.disk.files);
        if tempFilePath.None? then
          && replies == [Text(RenderFailed)]
          && t.doc == old(t.doc) && resources.jrysFile == old(resources.jrysFile)
          && resources.disk.files == Finally(files0, None, backgroundPath, shouldCleanup)
        else
          var rec := Recorded(old(t.doc), userId, backgroundPath, shouldCleanup);
          if rec.Some? then
            && replies == [Image(tempFilePath.value)]
            && t.doc == rec.value
            && resources.jrysFile == Some(if resources.isDataLoaded then Json(t.doc) else Corrupt)
            && resources.disk.files == Finally(files0 - Stale(old(t.doc), userId, backgroundPath, files0), tempFilePath, backgroundPath, false)
          else
            && replies == [Image(tempFilePath.value), Text(RenderFailed)]
            && t.doc == old(t.doc) && resources.jrysFile == old(resources.jrysFile)
            && resources.disk.files == Finally(files0, tempFilePath, backgroundPath, shouldCleanup)
    {
      var backgroundShouldCleanup := shouldCleanup;
      if tempFilePath.None? {
        replies := [Text(RenderFailed)];
      } else {
        replies := [Image(tempFilePath.value)];
        var recorded := RecordLastImage(t, userId, backgroundPath, backgroundShouldCleanup);
        if recorded {
          resources.SaveJrysData();
          backgroundShouldCleanup := false;
        } else {
          replies := replies + [Text(RenderFailed)];
        }
      }
      CleanUp(tempFilePath, backgroundPath, backgroundShouldCleanup);
    }

    /**
     * The record update of `jrys`: deletes the stale previous background and
     * stores the new record; `false` where the update raises.
     */
    method RecordLastImage(t: JsonObject, userId: string, backgroundPath: Path, shouldCleanup: bool)
      returns (ok: bool)
      requires WellFormed(t.doc)
      modifies t, resources.disk
      ensures WellFormed(t.doc)
      ensures var rec := Recorded(old(t.doc), userId, backgroundPath, shouldCleanup);
        && ok == rec.Some?
        && t.doc == (if ok then rec.value else old(t.doc))
        && resources.disk.files == old(resources.disk.files) - Stale(old(t.doc), userId, backgroundPath, old(resources.disk.files))
    {
      ghost var doc0 := t.doc;
      if LastImagesKey !in t.doc.values {
        t.Put(LastImagesKey, Records(map[]));
      }
      var userLastImages := t.doc.values[LastImagesKey];
      assert userLastImages == if LastImagesKey in doc0.values then doc0.values[LastImagesKey] else Records(map[]);
      if !userLastImages.Records? {
        return false;
      }
      if userId in userLastImages.records {
        var oldInfo := userLastImages.records[userId];
        var oldPath := oldInfo.path;
        if oldInfo.shouldCleanup && oldPath != "" && oldPath != backgroundPath && oldPath in resources.disk.files {
          resources.disk.RemoveIfExists(oldPath);
        }
      }
      var newRecords := Records(userLastImages.records[userId := LastImage(backgroundPath, shouldCleanup)]);
      t.Put(LastImagesKey, newRecords);
      if LastImagesKey !in doc0.values {
        SetTwice(doc0, LastImagesKey, Records(map[]), newRecords);
      }
      return true;
    }

    /** The `finally` block of `jrys`: the rendered file always goes, the background while it is still owned. */
    method CleanUp(tempFilePath: Option<Path>, backgroundPath: Path, backgroundShouldCleanup: bool)
      modifies resources.disk
      ensures resources.disk.files == Finally(old(resources.disk.files), tempFilePath, backgroundPath, backgroundShouldCleanup)
    {
      if tempFilePath.Some? && tempFilePath.value in resources.disk.files {
        resources.disk.RemoveIfExists(tempFilePath.value);
      }
      if backgroundShouldCleanup && backgroundPath != "" && backgroundPath in resources.disk.files {
        resources.disk.RemoveIfExists(backgroundPath);
      }
    }

    /** `jrys_last_command_handler`: loads the table and answers from the user's record. */
    method JrysLast(userId: string) returns (reply: Option<Reply>)
      requires Valid()
      modifies this, resources
      ensures Valid()
      ensures resources.jrysFile == FileAfterLoad(old(resources.isDataLoaded), old(resources.jrysFile))
      ensures resources.isDataLoaded == FlagAfterLoad(old(resources.isDataLoaded), old(resources.jrysFile)) && resources.Storage() == old(resources.Storage())
      ensures TableAfterLoad(resources) == old(TableAfterLoad(resources))
      ensures reply == LastLookup(old(TableAfterLoad(resources)), userId, resources.disk.files)
    {
      var t := resources.LoadJrysData();
      jrysData := t;
      var userLastImages := if LastImagesKey in t.doc.values then t.doc.values[LastImagesKey] else Records(map[]);
      if ObjectsOnly(userLastImages) {
        return Some(Text(NotGeneratedYet));
      }
      if !userLastImages.Records? {
        return None;
      }
      if userId !in userLastImages.records {
        return Some(Text(NotGeneratedYet));
      }
      var path := userLastImages.records[userId].path;
      if path == "" || path !in resources.disk.files {
        return Some(Text(LastImageGone));
      }
      return Some(Image(path));
    }

    /** `jrys_command_handler`: tags the event, then runs the flow. */
    method JrysCommand(event: Event, avatar: Got<Option<Path>>, background: Got<Option<(Path, bool)>>,
                       today: Date, seeded: string -> Draws, unseeded: Draws,
                       isImage: Blob -> bool, encode: Poster -> Blob, tempName: Path, now: real)
      returns (replies: seq<Reply>)
      requires Valid() && ValidDate(today)
      requires IsDraws(seeded(SeedFor(event.senderId, today))) && IsDraws(unseeded)
      requires tempName !in resources.disk.files
      requires background.Returned? && background.value.Some? ==> tempName != background.value.value.0
      modifies this, resources, resources.disk, resources.jrysData, event
      ensures Valid() && event.processed && jrysData != null && |replies| >= 1
      ensures resources.isDataLoaded == FlagAfterLoad(old(resources.isDataLoaded), old(resources.jrysFile)) && resources.Storage() == old(resources.Storage())
      ensures resources.isDataLoaded ==> TableAfterLoad(resources) == jrysData.doc
      ensures JrysOutcome(painter.cfg, painter.width36, isImage, event.senderId, avatar, background, today,
                          DrawsFor(painter.cfg.selection, event.senderId, today, seeded, unseeded), tempName,
                          old(TableAfterLoad(resources)), FileAfterLoad(old(resources.isDataLoaded), old(resources.jrysFile)),
                          old(resources.disk.files), resources.isDataLoaded,
                          replies, jrysData.doc, resources.disk.files, resources.jrysFile)
    {
      event.processed := true;
      replies := Jrys(event.senderId, avatar, background, today, seeded, unseeded, isImage, encode, tempName, now);
    }

    /** `jrys_keyword_handler`: runs the flow only when `ShouldTrigger` holds, and yields nothing otherwise. */
    method JrysKeyword(event: Event, avatar: Got<Option<Path>>, background: Got<Option<(Path, bool)>>,
                       today: Date, seeded: string -> Draws, unseeded: Draws,
                       isImage: Blob -> bool, encode: Poster -> Blob, tempName: Path, now: real)
      returns (replies: seq<Reply>)
      requires Valid() && ValidDate(today)
      requires IsDraws(seeded(SeedFor(event.senderId, today))) && IsDraws(unseeded)
      requires tempName !in resources.disk.files
      requires background.Returned? && background.value.Some? ==> tempName != background.value.value.0
      modifies this, resources, resources.disk, resources.jrysData
      ensures Valid()
      ensures ShouldTrigger(old(event.processed), jrysKeywordEnabled, event.messageStr) <==> |replies| >= 1
      ensures resources.Storage() == old(resources.Storage())
      ensures ShouldTrigger(old(event.processed), jrysKeywordEnabled, event.messageStr) ==>
        && jrysData != null
        && resources.isDataLoaded == FlagAfterLoad(old(resources.isDataLoaded), old(resources.jrysFile))
        && (resources.isDataLoaded ==> TableAfterLoad(resources) == jrysData.doc)
        && JrysOutcome(painter.cfg, painter.width36, isImage, event.senderId, avatar, background, today,
                       DrawsFor(painter.cfg.selection, event.senderId, today, seeded, unseeded), tempName,
                       old(TableAfterLoad(resources)), FileAfterLoad(old(resources.isDataLoaded), old(resources.jrysFile)),
                       old(resources.disk.files), resources.isDataLoaded,
                       replies, jrysData.doc, resources.disk.files, resources.jrysFile)
      ensures !ShouldTrigger(old(event.processed), jrysKeywordEnabled, event.messageStr) ==>
        && resources.disk.files == old(resources.disk.files) && jrysData == old(jrysData)
        && resources.jrysFile == old(resources.jrysFile) && resources.isDataLoaded == old(resources.isDataLoaded)
        && resources.jrysData == old(resources.jrysData)
        && (resources.jrysData != null ==> resources.jrysData.doc == old(resources.jrysData.doc))
    {
      if event.processed {
        return [];
      }
      var messageStr := Strip(event.messageStr);
      if jrysKeywordEnabled && messageStr in Keywords {
        replies := Jrys(event.senderId, avatar, background, today, seeded, unseeded, isImage, encode, tempName, now);
      } else {
        replies := [];
      }
    }
  }
}
