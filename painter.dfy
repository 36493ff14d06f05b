/**
 * `FortunePainter.generate_image_sync`: pick today's fortune from the table,
 * lay out its texts, draw them over the cropped background with the avatar,
 * and save the poster as a temporary JPEG. Pillow's drawing and the JPEG
 * encoder are one function from the composed poster to bytes; whether a file
 * decodes as an image is a predicate on its bytes.
 */
module Painter {
  import opened Wrappers
  import opened FileSystem
  import opened FortuneTable
  import opened Selection
  import opened Layout

  const DefaultSummary: string := "运势数据未知"
  const DefaultLuckyStar: string := "幸运星未知"
  const DefaultSignText: string := "星座运势未知"
  const DefaultUnsignText: string := "非星座运势未知"
  const WarningText: string := "仅供娱乐 | 相信科学 | 请勿迷信"

  /** The painter's settings: the selection rates and the y position of each text. */
  datatype PainterConfig = PainterConfig(
    selection: SelectionConfig,
    dateY: int, summaryY: int, luckyStarY: int, signTextY: int, unsignTextY: int, warningTextY: int)

  const DefaultPainterConfig: PainterConfig :=
    PainterConfig(DefaultSelectionConfig, 1300, 1400, 1500, 1600, UnsignTextY, WarningTextY)

  datatype Align = Center | Left

  /** One `draw_text` call: the text, its first baseline, the font size, the alignment and the gradient flag. */
  datatype Caption = Caption(text: string, y: int, fontSize: nat, align: Align, gradients: bool)

  /** Everything the poster is drawn from. */
  datatype Poster = Poster(background: Blob, captions: seq<Caption>, avatar: Option<Blob>)

  /** The four texts of an entry, each field read with its placeholder when it is absent. */
  datatype Texts = Texts(summary: string, luckyStar: string, signText: string, unsignText: string)

  function TextsOf(e: FortuneEntry): (t: Texts)
    requires e.Fortune?
    ensures e.summary.Some? ==> t.summary == e.summary.value
    ensures e.summary.None? ==> t.summary == DefaultSummary
    ensures e.luckyStar.Some? ==> t.luckyStar == e.luckyStar.value
    ensures e.luckyStar.None? ==> t.luckyStar == DefaultLuckyStar
    ensures e.signText.Some? ==> t.signText == e.signText.value
    ensures e.signText.None? ==> t.signText == DefaultSignText
    ensures e.unsignText.Some? ==> t.unsignText == e.unsignText.value
    ensures e.unsignText.None? ==> t.unsignText == DefaultUnsignText
  {
    Texts(e.summary.GetOr(DefaultSummary), e.luckyStar.GetOr(DefaultLuckyStar),
          e.signText.GetOr(DefaultSignText), e.unsignText.GetOr(DefaultUnsignText))
  }

  /** The six captions in drawing order: date, summary, lucky star, sign, unsign, warning. */
  function Captions(cfg: PainterConfig, date: string, t: Texts, rows: TextRows): seq<Caption> {
    [ Caption(date, cfg.dateY, 50, Center, true),
      Caption(t.summary, cfg.summaryY, 60, Center, false),
      Caption(t.luckyStar, cfg.luckyStarY, 60, Center, true),
      Caption(t.signText, cfg.signTextY, 30, Left, false),
      Caption(t.unsignText, rows.unsignY, 30, Left, false),
      Caption(WarningText, rows.warningY, 30, Center, false) ]
  }

  /** `crop_center` succeeds exactly when the background exists and decodes as an image. */
  predicate BackgroundUsable(files: map<Path, FileInfo>, backgroundPath: Path, isImage: Blob -> bool) {
    backgroundPath in files && isImage(files[backgroundPath].content)
  }

  /** `draw_avatar_img` pastes the avatar when it opens, and leaves the poster as it is otherwise. */
  function AvatarOf(files: map<Path, FileInfo>, avatarPath: Option<Path>, isImage: Blob -> bool): (a: Option<Blob>)
    ensures a.Some? <==> avatarPath.Some? && avatarPath.value in files && isImage(files[avatarPath.value].content)
    ensures a.Some? ==> a.value == files[avatarPath.value].content
  {
    if avatarPath.Some? && avatarPath.value in files && isImage(files[avatarPath.value].content)
    then Some(files[avatarPath.value].content)
    else None
  }

  /**
   * The poster `generate_image_sync` draws, or `None` where it returns `None`:
   * the selection fails (an empty table, or anything that raises while
   * drawing the fortune) or the background cannot be opened.
   */
  function Compose(cfg: PainterConfig, width36: Measure, files: map<Path, FileInfo>, isImage: Blob -> bool,
                   avatarPath: Option<Path>, backgroundPath: Path, doc: Doc, today: Date, draws: Draws): Option<Poster>
    requires WellFormed(doc) && ValidDate(today) && IsDraws(draws)
  {
    var choice := Select(doc, cfg.selection, today, draws);
    if choice.None? || !BackgroundUsable(files, backgroundPath, isImage) then None
    else
      var t := TextsOf(choice.value.entry);
      Some(Poster(files[backgroundPath].content, Captions(cfg, SlashDate(today), t, RowsFor(cfg, width36, t)),
                  AvatarOf(files, avatarPath, isImage)))
  }

  /**
   * The painter. Its settings are read once at construction; `width36` is
   * the width `textbbox` measures with the 36-point font.
   */
  class FortunePainter {
    const cfg: PainterConfig
    const width36: Measure

    constructor(cfg: PainterConfig, width36: Measure)
      ensures this.cfg == cfg && this.width36 == width36
    {
      this.cfg := cfg;
      this.width36 := width36;
    }

    /**
     * `generate_image_sync(user_id, avatar_path, background_path, jrys_data)`.
     * `draws` is the generator (see `DrawsFor`), `today` the date
     * `datetime.now()` reports, `tempName` the fresh name
     * `NamedTemporaryFile` picks, `now` the time the file is written and
     * `encode` Pillow's drawing and JPEG encoding.
     */
    method GenerateImage(disk: Disk, avatarPath: Option<Path>, backgroundPath: Path, doc: Doc,
                         today: Date, draws: Draws, isImage: Blob -> bool, encode: Poster -> Blob,
                         tempName: Path, now: real) returns (r: Option<Path>)
      requires WellFormed(doc) && ValidDate(today) && IsDraws(draws)
      modifies disk
      ensures var p := Compose(cfg, width36, old(disk.files), isImage, avatarPath, backgroundPath, doc, today, draws);
        && (p.None? ==> r.None? && disk.files == old(disk.files))
        && (p.Some? ==> r == Some(tempName) && disk.files == old(disk.files)[tempName := FileInfo(now, encode(p.value))])
    {
      if doc.keys == [] {
        return None;
      }
      var keys := CandidateKeys(doc.keys);
      var scores := Scores(keys);
      if scores.None? {
        return None;
      }
      var rates := RatesFor(cfg.selection, MonthDay(today));
      var weights := ComputeWeights(scores.value, rates);
      var i := ChoiceIndex(weights, draws.unit);
      if i.None? {
        return None;
      }
      var key1 := keys[i.value];
      assert key1 in keys;
      var choice := DrawEntry(key1, doc.values[key1], draws.below);
      assert choice == Select(doc, cfg.selection, today, draws);
      if choice.None? {
        return None;
      }
      var t := TextsOf(choice.value.entry);
      var unsignLines := WrapText(t.unsignText, width36, TextWrapWidth);
      var rows := AdjustForOverflow(cfg.unsignTextY, cfg.warningTextY, |unsignLines|);
      if !BackgroundUsable(disk.files, backgroundPath, isImage) {
        return None;
      }
      var poster := Poster(disk.files[backgroundPath].content, Captions(cfg, SlashDate(today), t, rows),
                           AvatarOf(disk.files, avatarPath, isImage));
      assert rows == RowsFor(cfg, width36, t);
      PosterOf(cfg, width36, disk.files, isImage, avatarPath, backgroundPath, doc, today, draws);
      disk.Write(tempName, FileInfo(now, encode(poster)));
      return Some(tempName);
    }
  }

  /** A poster is drawn exactly when the selection succeeds and the background opens. */
  lemma ComposeFailsExactly(cfg: PainterConfig, width36: Measure, files: map<Path, FileInfo>, isImage: Blob -> bool,
                            avatarPath: Option<Path>, backgroundPath: Path, doc: Doc, today: Date, draws: Draws)
    requires WellFormed(doc) && ValidDate(today) && IsDraws(draws)
    ensures Compose(cfg, width36, files, isImage, avatarPath, backgroundPath, doc, today, draws).Some?
        <==> Select(doc, cfg.selection, today, draws).Some? && BackgroundUsable(files, backgroundPath, isImage)
  {
  }

  /**
   * The poster shows today's date, the drawn entry's texts and the warning,
   * over the background's bytes, with the avatar whenever it opens.
   */
  lemma PosterShowsFortune(cfg: PainterConfig, width36: Measure, files: map<Path, FileInfo>, isImage: Blob -> bool,
                           avatarPath: Option<Path>, backgroundPath: Path, doc: Doc, today: Date, draws: Draws)
    requires WellFormed(doc) && ValidDate(today) && IsDraws(draws)
    ensures var p := Compose(cfg, width36, files, isImage, avatarPath, backgroundPath, doc, today, draws);
      p.Some? ==>
        var t := TextsOf(Select(doc, cfg.selection, today, draws).value.entry);
        && p.value.background == files[backgroundPath].content
        && p.value.avatar == AvatarOf(files, avatarPath, isImage)
        && |p.value.captions| == 6
        && p.value.captions[0].text == SlashDate(today)
        && p.value.captions[1].text == t.summary
        && p.value.captions[2].text == t.luckyStar
        && p.value.captions[3].text == t.signText
        && p.value.captions[4].text == t.unsignText
        && p.value.captions[5].text == WarningText
  {
    var choice := Select(doc, cfg.selection, today, draws);
    if choice.Some? && BackgroundUsable(files, backgroundPath, isImage) {
      PosterOf(cfg, width36, files, isImage, avatarPath, backgroundPath, doc, today, draws);
      var t := TextsOf(choice.value.entry);
      CaptionsShow(cfg, SlashDate(today), t, RowsFor(cfg, width36, t));
    }
  }

  /** Where the unsign and warning texts go for an entry's texts. */
  function RowsFor(cfg: PainterConfig, width36: Measure, t: Texts): TextRows {
    Shifted(cfg.unsignTextY, cfg.warningTextY, |Wrap(t.unsignText, width36, TextWrapWidth)|)
  }

  /** `Compose` unfolded once, with the rows named. */
  lemma PosterOf(cfg: PainterConfig, width36: Measure, files: map<Path, FileInfo>, isImage: Blob -> bool,
                 avatarPath: Option<Path>, backgroundPath: Path, doc: Doc, today: Date, draws: Draws)
    requires WellFormed(doc) && ValidDate(today) && IsDraws(draws)
    requires Select(doc, cfg.selection, today, draws).Some? && BackgroundUsable(files, backgroundPath, isImage)
    ensures var t := TextsOf(Select(doc, cfg.selection, today, draws).value.entry);
      Compose(cfg, width36, files, isImage, avatarPath, backgroundPath, doc, today, draws)
      == Some(Poster(files[backgroundPath].content,
                     Captions(cfg, SlashDate(today), t, RowsFor(cfg, width36, t)),
                     AvatarOf(files, avatarPath, isImage)))
  {
  }

  /** An empty table never yields a poster, whatever else holds. */
  lemma EmptyTableGivesNothing(cfg: PainterConfig, width36: Measure, files: map<Path, FileInfo>, isImage: Blob -> bool,
                               avatarPath: Option<Path>, backgroundPath: Path, doc: Doc, today: Date, draws: Draws)
    requires WellFormed(doc) && doc.keys == [] && ValidDate(today) && IsDraws(draws)
    ensures Compose(cfg, width36, files, isImage, avatarPath, backgroundPath, doc, today, draws).None?
  {
  }

  /**
   * The unsign and warning texts sit at the rows `RowsFor` gives for the
   * drawn entry's texts (see `RowsForOverflow` for what those rows are).
   */
  lemma PosterRows(cfg: PainterConfig, width36: Measure, files: map<Path, FileInfo>, isImage: Blob -> bool,
                   avatarPath: Option<Path>, backgroundPath: Path, doc: Doc, today: Date, draws: Draws)
    requires WellFormed(doc) && ValidDate(today) && IsDraws(draws)
    ensures var p := Compose(cfg, width36, files, isImage, avatarPath, backgroundPath, doc, today, draws);
      p.Some? ==>
        var rows := RowsFor(cfg, width36, TextsOf(Select(doc, cfg.selection, today, draws).value.entry));
        |p.value.captions| == 6 && p.value.captions[4].y == rows.unsignY && p.value.captions[5].y == rows.warningY
  {
    var choice := Select(doc, cfg.selection, today, draws);
    if choice.Some? && BackgroundUsable(files, backgroundPath, isImage) {
      PosterOf(cfg, width36, files, isImage, avatarPath, backgroundPath, doc, today, draws);
      var t := TextsOf(choice.value.entry);
      CaptionsShow(cfg, SlashDate(today), t, RowsFor(cfg, width36, t));
    }
  }

  /** The six captions in drawing order, with what each shows and where the two movable ones go. */
  lemma CaptionsShow(cfg: PainterConfig, date: string, t: Texts, rows: TextRows)
    ensures var cs := Captions(cfg, date, t, rows);
      && |cs| == 6 && cs[4].y == rows.unsignY && cs[5].y == rows.warningY
      && cs[0].text == date && cs[1].text == t.summary && cs[2].text == t.luckyStar
      && cs[3].text == t.signText && cs[4].text == t.unsignText && cs[5].text == WarningText
  {
  }

  /**
   * The rows for an entry's texts: where the configuration puts them up to
   * three unsign lines at the 36-point width; past that, each extra line
   * moves the warning 10 down and the unsign text 15 up.
   */
  lemma RowsForOverflow(cfg: PainterConfig, width36: Measure, t: Texts)
    ensures var n := |Wrap(t.unsignText, width36, TextWrapWidth)|;
      && (n <= 3 ==> RowsFor(cfg, width36, t) == TextRows(cfg.unsignTextY, cfg.warningTextY))
      && (n > 3 ==> RowsFor(cfg, width36, t) == TextRows(cfg.unsignTextY - 15 * (n - 3), cfg.warningTextY + 10 * (n - 3)))
  {
  }

  /** A fortune whose unsign text fits on one line leaves both texts where the configuration puts them. */
  lemma ShortUnsignTextStays(cfg: PainterConfig, width36: Measure, t: Texts)
    requires t.unsignText != []
    requires forall j :: 1 <= j <= |t.unsignText| ==> width36(t.unsignText[..j]) <= TextWrapWidth
    ensures Shifted(cfg.unsignTextY, cfg.warningTextY, |Wrap(t.unsignText, width36, TextWrapWidth)|)
         == TextRows(cfg.unsignTextY, cfg.warningTextY)
  {
    FittingTextIsOneLine(t.unsignText, width36, TextWrapWidth);
  }

  /**
   * With fixed daily fortunes the poster of a user depends only on the user,
   * the day, the table and the files: the unseeded generator plays no part.
   */
  lemma SameUserSameDaySamePoster(cfg: PainterConfig, width36: Measure, files: map<Path, FileInfo>, isImage: Blob -> bool,
                                  avatarPath: Option<Path>, backgroundPath: Path, doc: Doc, userId: string, today: Date,
                                  seeded: string -> Draws, other1: Draws, other2: Draws)
    requires WellFormed(doc) && ValidDate(today) && cfg.selection.fixedDailyFortune
    requires IsDraws(seeded(SeedFor(userId, today))) && IsDraws(other1) && IsDraws(other2)
    ensures Compose(cfg, width36, files, isImage, avatarPath, backgroundPath, doc, today,
                    DrawsFor(cfg.selection, userId, today, seeded, other1))
         == Compose(cfg, width36, files, isImage, avatarPath, backgroundPath, doc, today,
                    DrawsFor(cfg.selection, userId, today, seeded, other2))
  {
    FixedFortuneIsDeterministic(doc, cfg.selection, userId, today, seeded, other1, other2);
  }
}
