# Daily fortune poster ("今日运势") — a Dafny model

This project models the core of the AstrBot plugin that draws a daily fortune poster for a chat user. The core has three parts:

- **Resource manager.** It chooses and caches background images listed in `backgroundFolder/*.txt`, with a retrying downloader, permanent and ephemeral cache names, legacy-cache migration and background pre-caching. It also caches QQ avatars with an expiry, and loads and saves the fortune table `jrys.json`.
- **Painter.** It picks a fortune. Score keys are sorted into good, normal and bad classes and weighted by the normal or holiday rates. A generator seeded with the user and the day makes the draw repeatable. The painter then wraps the unsign text at the 36-point width, moves the unsign and warning captions when that text runs past three lines, and writes the poster to a temporary file.
- **Plugin.** It handles the `jrys` command, its keyword trigger and `jrys_last`. It sends the poster, records the background each user last received, deletes the previous ephemeral background, and cleans up temporary files in its `finally` block.

Modules, one per file:

| file | module | what it holds |
|---|---|---|
| wrappers.dfy | Wrappers | `Option` |
| text.dfy | Text | Python's `strip()`, `startswith`/`endswith`, ASCII `lower()`, string order for `sorted()` |
| pyint.dfy | PyInt | Python's `int()` on strings |
| filesystem.dfy | FileSystem | paths, files with mtime and bytes, `class Disk` |
| table.dfy | FortuneTable | the insertion-ordered JSON document `jrys.json`, `class JsonObject` |
| cache_naming.dfy | CacheNaming | `splitext`, the extension rule, cache and temporary file names |
| downloader.dfy | Downloader | `_download_to_path`: the loop as a method, and its specification function `Run` |
| migration.dfy | Migration | `_migrate_legacy_cache_dir` |
| resources.dfy | Resources | `class ResourceManager` |
| selection.dfy | Selection | key classes, weights, `choices` as `bisect_right`, dates, seeds, the draw |
| layout.dfy | Layout | `wrap_text` and the overflow offsets |
| painter.dfy | Painter | `class FortunePainter`, `GenerateImage`, the poster as a value |
| plugin.dfy | Plugin | `class JrysPlugin`: `jrys`, `jrys_last`, and the command and keyword handlers |

Everything outside the process becomes an input:

- **Network.** Each download attempt's outcome is an input.
- **Randomness.** The `random` choices and shuffles are functions passed in. The generator is a `Draws` value: a unit real for `choices` and a `below(n) < n` picker for `choice`. The seeded generator is a function from the seed string.
- **Clocks.** `now` and today's `Date` are parameters.
- **UUIDs.** `uuid4().hex` tokens are parameters.
- **sha256 and `urlparse`.** Both are functions.
- **Pillow.** The 36-point font metric is a function (`Measure`). "Is this a decodable image" is a predicate. JPEG encoding is a function from the `Poster` value to bytes.
- **Gathered fetches.** The results of the avatar and background fetches that `jrys` gathers arrive as `Got` values: raised, or returned.

## Model

| member | source | states |
|---|---|---|
| Text.Strip | resources.py:90 | the result is no longer than the input and neither starts nor ends with whitespace |
| Text.StripIsSlice | resources.py:90 | the result is a slice of the input with only whitespace cut off before and after it |
| Text.StripIgnoresPadding | main.py:71 | whitespace around a message never changes its `strip()` |
| Text.StripKeepsTrimmed | main.py:71-74 | text with no whitespace at either end is its own `strip()` |
| Text.Lower | resources.py:370 | same length; each ASCII capital is lowered and every other character is kept |
| Text.BelowIrreflexive | resources.py:504 | Python's string order is irreflexive |
| Text.BelowTransitive | resources.py:504 | Python's string order is transitive |
| Text.BelowTotal | resources.py:504 | any two distinct strings are ordered one way or the other |
| Text.Insert | resources.py:490-504 | adding a URL to a sorted, duplicate-free list keeps it sorted and duplicate-free; the elements become the old ones plus the new one, and the length grows only for a new element |
| PyInt.ParseShowRoundTrip | painter.py:149-151 | `int(str(n)) == n` for every integer |
| PyInt.ParseIgnoresPadding | painter.py:156 | whitespace around a key never changes what `int()` reads |
| PyInt.RejectsFraction | painter.py:156 | `int("7.5")` raises |
| PyInt.RejectsDoubledUnderscore | painter.py:156 | `int("1__0")` raises |
| PyInt.RejectsMissingDigits | painter.py:156 | `int("")`, `int("-")` and `int("+")` raise |
| FileSystem.Disk.Write | painter.py:264-267 | the file is created or truncated with the new contents; nothing else changes |
| FileSystem.Disk.RemoveIfExists | main.py:197-205 | the path is gone afterwards and nothing else changes |
| FileSystem.Disk.Replace | resources.py:418 | the source is renamed onto the destination, overwriting it |
| FortuneTable.Set | main.py:166-169 | `d[k] = v` stores `v` under `k`, keeps every other key and its value, keeps the key order for an existing key and appends a new key last |
| FortuneTable.JsonObject.Put | main.py:152-153 | the shared object's document becomes `Set(old doc, k, v)` |
| FortuneTable.EmptyDocIsWellFormed | resources.py:614-616 | the `{}` written for a missing file is a well-formed empty document |
| CacheNaming.LastIndexOf | resources.py:370 | `rfind`: -1 or an index holding the character, with no later occurrence |
| CacheNaming.SplitExt | resources.py:370 | the extension is empty, or a dot-led suffix of the path with no other dot or slash |
| CacheNaming.ExtensionFor | resources.py:370-372 | the extension is ".img" or the lower-cased `splitext` suffix; it has 1 to 10 characters, starts with a dot, and holds no slash and no capital |
| CacheNaming.EphemeralPathsAvoidCache | resources.py:365-384 | a temporary download path never equals a permanent cache path, because the two directories differ |
| CacheNaming.CacheNamesSeparateDigests | resources.py:373-374 | cache names built from equal-length digests start with the digest, and differ when the digests differ |
| CacheNaming.NoSuffixFallsBack | resources.py:370-372 | a file name with no dot gets ".img" |
| CacheNaming.DotFileFallsBack | resources.py:370-372 | a dot-file with no other dot gets ".img", since `splitext` gives it no suffix |
| CacheNaming.LongSuffixFallsBack | resources.py:370-372 | a suffix of ten or more characters after the dot gets ".img" |
| CacheNaming.SuffixIsLowerCased | resources.py:370-372 | a short suffix after a non-empty stem is kept, lower-cased |
| Downloader.TmpIsNotDest | resources.py:395 | the per-attempt temporary file is never the destination itself |
| Downloader.RunSpec | resources.py:392-483 | at most `budget + 1` GETs, retrying only 5xx statuses and exceptions; success exactly when the last attempt delivered; no temporary file survives; the destination holds the body on success and is untouched on failure; nothing else changes |
| Downloader.DownloadSpec | resources.py:386-483 | the whole call with `max(0, retries)` retries: 1 to `retries + 1` GETs, success exactly when the last attempt delivered, no temporary file left, the destination as above |
| Downloader.ClientErrorIsNotRetried | resources.py:402-411 | a status that is neither 2xx nor 5xx fails at once, with one GET, whatever retries remain |
| Downloader.ServerErrorThenSuccess | resources.py:402-419 | a 503 followed by a 200 succeeds on the second GET, with the body at the destination and neither temporary file left |
| Downloader.DownloadToPath | resources.py:386-483 | the loop returns the verdict, the number of GETs, and the files that `Run` describes |
| Migration.MigrateLegacyCacheDir | resources.py:189-255 | the loop's result (legacy directory, target directory, four counters) equals the order-free specification `Migrate`, whatever order `iterdir()` lists entries in |
| Migration.NewerCopyWins | resources.py:211-237 | a legacy file no newer than its same-named target is deleted; otherwise it replaces the target, unless the rename fails, in which case both stay as they were |
| Migration.OtherTargetsUntouched | resources.py:207-240 | the target keeps all its files, gains only legacy names, and changes no file whose name is not in the legacy directory |
| Migration.LegacyRemovedWhenEmptied | resources.py:242-246 | the legacy directory is removed exactly when every entry was moved or discarded; what remains is the non-files and the failed renames, unchanged |
| Migration.CountersPartitionFiles | resources.py:202-240 | moved + skipped + failed equals the number of legacy files, and replaced ≤ moved + failed |
| Migration.MigrationIsIdempotent | resources.py:189-255 | running the migration again on its own result changes nothing |
| Resources.LayoutFor | resources.py:257-357 | the temporary directory is the cache directory plus "_tmp"; the avatar directory differs from both; without the host data root the plugin directory is used |
| Resources.LegacyMoves | resources.py:286-355 | eight legacy directories with the host data root and five without, each moved into one of the three cache directories |
| Resources.FallbackMovesNeverSelfTarget | resources.py:316-355 | in the fallback layout no legacy directory is its own target |
| Resources.AvatarLookupSpec | resources.py:149-178 | a fresh cached avatar is returned without a download; otherwise the avatar is downloaded, the path is returned exactly when the download delivered, and a failure leaves the old file as it was |
| Resources.AvatarCachedAfterDownload | resources.py:153-167 | once an avatar is downloaded, a second lookup at the same moment returns it without any download |
| Resources.TxtFiles | resources.py:73-77 | exactly the listed files whose names end in ".txt" |
| Resources.NonBlankLinesSpec | resources.py:90 | every kept line is a stripped, non-empty line of the file, and every such line is kept |
| Resources.BackgroundCandidates | resources.py:72-98 | when there are candidates, the listing exists and there are 1 to 5 of them |
| Resources.CandidatesOfChosenFile | resources.py:72-98 | there are no candidates exactly when the folder cannot be listed, has no ".txt" file, or the file `random.choice` picks cannot be read or has no non-blank line; otherwise there are `min(5, n)` of that file's `n` non-blank lines, none taken more often than it occurs |
| Resources.CandidatesAreTxtLines | resources.py:72-98 | each candidate is a stripped, non-empty line of one of the listed ".txt" files |
| Resources.PickFromFailsExactly | resources.py:107-133 | with fresh temporary names, no background is found exactly when every http(s) candidate has no cached copy and its download does not deliver; the disk is then exactly as before |
| Resources.PickFromOnlyAddsFound | resources.py:107-133 | the candidate loop adds or changes no file other than the background it returns; failed downloads leave nothing new behind |
| Resources.PickFromSpec | resources.py:107-133 | a found background exists on disk, is ephemeral only when cleanup applies, and is the cache or temporary path of an http(s) candidate |
| Resources.CacheHitNeedsNoDownload | resources.py:114-118 | an http candidate already cached is returned at once, with cleanup off and the disk unchanged |
| Resources.NoHttpCandidateGivesNone | resources.py:107-112 | candidates that are not http(s) URLs give no background and leave the disk unchanged |
| Resources.AddUrls | resources.py:493-500 | the loop adds exactly the stripped http(s) lines of a file to the URLs found so far |
| Resources.SortedList | resources.py:504 | `sorted(set)`: strictly sorted, the same elements, the same size |
| Resources.TruncateTowardZero | resources.py:516 | `int(float)` truncates toward zero, for either sign |
| Resources.Clamp | resources.py:519 | the result lies in [1, 10] and is the nearest such value to the input |
| Resources.ConcurrencyFrom | resources.py:515-519 | the result lies in [1, 10]; an unreadable setting gives 3; an integer already in range is kept |
| Resources.ConcurrencyExamples | resources.py:515-519 | a missing setting gives 3, 0 gives 1, 64 gives 10, 7.9 gives 7, -0.5 gives 1, and a non-number gives 3 |
| Resources.UncachedMembers | resources.py:521-528 | the download queue holds exactly the URLs whose cache file is missing, paired with their cache paths |
| Resources.CachedPlusQueuedIsTotal | resources.py:521-528 | cached + queued equals the number of URLs |
| Resources.Batch | resources.py:559-572 | no more downloads succeed than were queued |
| Resources.BatchStepCountsDelivery | resources.py:551-572 | each queued download counts as downloaded exactly when its file exists afterwards, that is, when it was already there or the last attempt delivered |
| Resources.ResourceManager.constructor | resources.py:25-57 | the settings take their defaults (one day, pre-cache off, cleanup on); storage is not set up and no data is loaded |
| Resources.ResourceManager.EnsureStorageDirs | resources.py:257-357 | the first call sets up the layout and returns the migration plan; later calls change nothing |
| Resources.ResourceManager.GetAvatarImg | resources.py:139-178 | the returned path and the new disk are those of `AvatarLookup` for `<avatar dir>/<user id>.jpg` |
| Resources.ResourceManager.GetBackgroundImage | resources.py:59-137 | no candidates gives None with the disk unchanged; otherwise the result and the disk are those of trying the candidates in order |
| Resources.ReadCandidates | resources.py:72-98 | the listing, file choice, non-blank lines, shuffle and cut to five give exactly `BackgroundCandidates`, whose contents `CandidatesOfChosenFile` and `CandidatesAreTxtLines` state |
| Resources.ResourceManager.TryCandidates | resources.py:107-133 | the loop over at most five candidates gives the same result and disk as `PickFrom` |
| Resources.ResourceManager.CollectAllBackgroundUrls | resources.py:485-504 | the sorted, duplicate-free list of every http(s) line in the ".txt" files |
| Resources.ResourceManager.PartitionCached | resources.py:521-528 | the cached count and the download queue, which together account for every URL |
| Resources.ResourceManager.PreCacheBackgroundImages | resources.py:506-596 | no URLs gives no report and an unchanged disk; otherwise the sorted URLs, the clamped concurrency, the queue of uncached URLs, downloaded + failed = queued, and the disk the downloads leave |
| Resources.ResourceManager.PreCacheUrls | resources.py:515-572 | the report's counts and the disk after downloading the queue |
| Resources.ResourceManager.DownloadQueued | resources.py:559-572 | the disk and the downloaded count equal those of `Batch`, and downloaded + failed = queued |
| Resources.ResourceManager.LoadJrysData | resources.py:599-635 | once loaded, the same object is returned; otherwise a missing file is created as `{}`, valid JSON is loaded and kept, and corrupt JSON gives a fresh `{}` with the loaded flag left false |
| Resources.ResourceManager.SaveJrysData | resources.py:637-645 | the file holds the shared document, or a truncated file when no document was ever loaded |
| Selection.CandidateKeys | painter.py:137 | exactly the keys not starting with "_", in order |
| Selection.ScoresSpec | painter.py:149-151 | the keys are scored exactly when every key parses as an integer, and each score is its key's value |
| Selection.ClassOf | painter.py:149-151 | good above 70, normal from 56 to 70, bad below 56 |
| Selection.ClassesPartition | painter.py:149-151 | the three class lists together have one element per key |
| Selection.ComputeWeights | painter.py:154-170 | the loop's weights equal `Weights`: each key gets its class's rate divided by `max(len(class), 1)`, and all ones when the sum is not positive |
| Selection.WeightsNonNegative | painter.py:154-166 | every weight is non-negative |
| Selection.WeightsSumToPresentRates | painter.py:154-166 | the weights sum to the rates of the classes that have keys |
| Selection.FallbackExactlyWhenRatesAreZero | painter.py:168-170 | the all-ones fallback happens exactly when every class with keys has rate 0 |
| Selection.WeightsAreUsable | painter.py:154-170 | the weights handed to `choices` are non-negative and, for a non-empty table, have a positive sum |
| Selection.BadWeightIsZero | painter.py:165-166 | a bad key gets weight 0 when the bad rate is 0 |
| Selection.BisectRight | painter.py:173 | `bisect_right`: everything before the index is ≤ x and the element at the index is > x |
| Selection.ChoiceIndex | painter.py:173 | the drawn index is in range |
| Selection.ChoiceIndexDefined | painter.py:173 | `choices` always draws when the weights have a positive sum |
| Selection.ChosenWeightIsPositive | painter.py:173 | a key with weight 0 is never drawn |
| Selection.BisectLandsOnPositive | painter.py:173 | the bisection lands on a positive weight |
| Selection.PointBelowTotal | painter.py:173 | the random point lies in [0, total) |
| Selection.IsoDate | painter.py:131 | "%Y-%m-%d" is ten characters |
| Selection.MonthDay | painter.py:140 | "%m-%d" is the tail of "%Y-%m-%d" |
| Selection.SlashDate | painter.py:184 | "%Y/%m/%d" is ten characters with slashes at 4 and 7 |
| Selection.IsoDateInjective | painter.py:131 | different days give different date strings |
| Selection.SeedSeparatesUsersAndDays | painter.py:131-133 | two users, or two days, never share a seed |
| Selection.DrawKey | painter.py:137-178 | a drawn key is a non-reserved key of the table, so the "key not found" branch is never taken |
| Selection.DrawnScoreIsKeyValue | painter.py:155-173 | the drawn score is the integer its key spells |
| Selection.DrawEntry | painter.py:180-181 | the drawn entry is the element at an in-range index of the key's list, and is an object |
| Selection.Select | painter.py:116-181 | a selected fortune is an element of a non-reserved key's list in the table |
| Selection.DrawKeySucceeds | painter.py:137-173 | a table with a non-reserved key and all keys numeric always yields a key |
| Selection.DrawEntrySucceeds | painter.py:180-181 | a non-empty list of objects always yields an entry |
| Selection.SelectSucceedsOnGoodTables | painter.py:116-181 | a numeric, non-empty table whose lists are non-empty lists of objects always yields a fortune |
| Selection.FixedFortuneIsDeterministic | painter.py:127-135 | with fixed daily fortunes, the draw depends only on the user and the day, never on the unseeded generator |
| Selection.DefaultHolidayNeverDrawsBad | painter.py:140-166 | on a default holiday, a table with a good or a normal key never draws a bad one |
| Selection.DefaultHolidayRates | painter.py:97-99 | a check of the constants: the default holiday rates are 85, 15 and 0 |
| Layout.WrapText | painter.py:502-520 | the loop's lines equal `Wrap`, the greedy breaker |
| Layout.WrapRoundTrip | painter.py:507-520 | joining the lines gives back the text |
| Layout.WrapEmpty | painter.py:507-520 | empty text gives no line, and any other text at least one |
| Layout.WrapShape | painter.py:509-519 | every line fits, or is a single over-wide character, or is the empty first line; each break happens only because the next line's first character did not fit |
| Layout.FittingTextIsOneLine | painter.py:509-519 | text whose every prefix fits stays on one line |
| Layout.StepsSpellText | painter.py:509-517 | after n characters the closed lines and the current one spell the first n characters |
| Layout.AdjustForOverflow | painter.py:197-199 | up to three lines leaves both rows; each line past the third moves the warning 10 down and the unsign text 15 up |
| Layout.ShiftedGap | painter.py:197-199 | each line past the third opens the gap by 25, and more lines never move the warning up or the unsign text down |
| Painter.FortunePainter.constructor | painter.py:35-68 | the painter keeps its configuration and its 36-point metric |
| Painter.TextsOf | painter.py:187-190 | each text is the entry's field, or its default when the field is absent |
| Painter.AvatarOf | painter.py:262 | the avatar is drawn exactly when its file exists and decodes as an image |
| Painter.FortunePainter.GenerateImage | painter.py:113-271 | no poster gives None with the disk unchanged; otherwise the poster is written to the temporary file, whose name is returned |
| Painter.ComposeFailsExactly | painter.py:113-205 | the poster fails exactly when no fortune is selected or the background is unusable |
| Painter.PosterShowsFortune | painter.py:183-262 | the poster shows the background, the avatar, and six captions: the slash date, the entry's four texts and the warning |
| Painter.CaptionsShow | painter.py:183-260 | an unfolding of `Captions`, used by the two poster lemmas: six captions, the unsign and warning captions at the given rows, and the slash date, the entry's four texts and the warning as their texts |
| Painter.PosterRows | painter.py:193-260 | the unsign and warning captions sit at the rows computed from the wrapped unsign text |
| Painter.RowsForOverflow | painter.py:193-199 | those rows are the configured ones up to three lines, and moved by 15 and 10 per extra line |
| Painter.ShortUnsignTextStays | painter.py:193-199 | an unsign text whose prefixes all fit leaves both rows where they are |
| Painter.EmptyTableGivesNothing | painter.py:116-118 | an empty table gives no poster |
| Painter.SameUserSameDaySamePoster | painter.py:127-135 | with fixed fortunes, the same user on the same day gets the same poster |
| Plugin.RecordedSpec | main.py:151-169 | recording succeeds exactly when `_user_last_images` is absent or an object; it then stores the user's new record, keeps every other user's record and every other key |
| Plugin.RecordingKeepsSelection | main.py:151-169 | recording a background never changes which fortune the table yields |
| Plugin.LastImagesOnlyKeepsSelection | main.py:151-169 | any table that differs from another only under `_user_last_images` yields the same fortune |
| Plugin.LastSendsRecorded | main.py:43-59 | after a recording, `jrys_last` sends that background if the file exists, and the "gone" message otherwise |
| Plugin.LastWithoutRecord | main.py:47-50 | a user with no record gets the "not generated yet" message, including when `_user_last_images` is a list of objects |
| Plugin.StaleIsPreviousEphemeral | main.py:155-164 | only the user's previous background is deleted, and only when it was ephemeral, non-empty, different from the new one and present |
| Plugin.BackgroundOwnership | main.py:134-205 | the temporary poster never survives; an image is sent only for a real poster; a recorded background is kept; an ephemeral background not handed over to the table is deleted |
| Plugin.TriggerIgnoresPadding | main.py:71-74 | whitespace around a message never changes whether it triggers |
| Plugin.PaddedKeywordTriggers | main.py:71-74 | every keyword, with any whitespace around it, triggers |
| Plugin.KeywordTriggers | main.py:72-74 | each of "jrys", "今日运势" and "运势" triggers when keyword triggering is on and the event is untagged |
| Plugin.LongerMessageDoesNotTrigger | main.py:71-74 | "jrys now" does not trigger |
| Plugin.FinallyKeepsOrDrops | main.py:179-205 | the `finally` block always deletes the temporary poster, deletes an owned background, and leaves an unowned background as it was |
| Plugin.JrysPlugin.constructor | main.py:17-25 | the keyword switch defaults to on |
| Plugin.JrysPlugin.Jrys | main.py:80-205 | the table is loaded and becomes the plugin's own (the one the resource manager holds once loaded, so the next load hands out the table this run left); the loaded flag is set exactly when it was set already or `jrys.json`, created if missing, parses; the storage set-up is unchanged; then `JrysOutcome` holds for the loaded table, the file loading left and the disk |
| Plugin.JrysPlugin.Respond | main.py:94-205 | `JrysOutcome`: a failed background fetch replies with one message and leaves the disk, the table and `jrys.json` unchanged; a failed avatar fetch does the same but deletes an ephemeral background; otherwise the render outcome below holds; the loaded flag, the loaded table and the storage set-up stay as they were |
| Plugin.JrysPlugin.RenderAndRecord | main.py:134-205 | no poster replies "render failed" and runs the cleanup; a poster is sent, then recorded and saved to `jrys.json` (emptied when the table was never loaded) with the stale background deleted; a failed recording adds "render failed" and runs the cleanup; only the recording branch changes the table or the file; the loaded flag, the loaded table and the storage set-up stay as they were |
| Plugin.JrysPlugin.Deliver | main.py:143-205 | for each of the three outcomes after rendering: the replies, the table, `jrys.json` (the recorded table itself when it was loaded, untouched when nothing is recorded) and the disk; the loaded flag, the loaded table and the storage set-up stay as they were |
| Plugin.JrysPlugin.RecordLastImage | main.py:151-170 | the document becomes `Recorded` when recording is possible and is unchanged otherwise; the stale background is deleted either way |
| Plugin.JrysPlugin.CleanUp | main.py:179-205 | the temporary file and, when owned, the background are deleted |
| Plugin.JrysPlugin.JrysLast | main.py:43-59 | the reply is the recorded background if it still exists, or the matching message; `jrys.json` is as loading left it, the loaded flag is set exactly as loading sets it, the table a later load hands out is the same, and the storage set-up is unchanged |
| Plugin.LastAnswersRecordedRun | main.py:43-59 | after a `jrys` run that sent and recorded its poster (main.py:150-172), `jrys_last` on the table it left sends that background if it existed before the run, and the "gone" message otherwise |
| Plugin.JrysPlugin.JrysCommand | main.py:29-40 | the event is marked processed, and the replies, the table, `jrys.json`, the disk, the loaded flag and the storage set-up are those `jrys` leaves for the sender |
| Plugin.JrysPlugin.JrysKeyword | main.py:62-78 | a reply is sent exactly when the message triggers; a triggering message gives the replies, table, `jrys.json`, disk and loaded flag `jrys` leaves for the sender; the storage set-up never changes; an event that does not trigger changes neither the disk, nor the tables, nor `jrys.json`, nor the loaded flag |

## Left out

- **I/O and the outside world.** Network, clocks, randomness, `uuid4`, sha256, `urlparse` and Pillow are inputs or functions, as described above. Cropping, resizing, colour picking, `draw_text` pixel placement and the 30-, 50- and 60-point fonts are left out. The captions record text, row, font size, alignment and gradient, and only the 36-point metric that wrapping needs is modelled.
- **Concurrency.**
  - The avatar and background fetches that `jrys` gathers are inputs.
  - Pre-caching runs its downloads one after another. The semaphore, `gather` and task cancellation are left out, and so is `terminate`, which cancels the pre-cache coroutine and closes the HTTP session.
  - `_start_background_precache` only starts that coroutine, unless one is still running. `initialize` runs `_ensure_storage_dirs` (modelled by `EnsureStorageDirs`) and then starts it only when `pre_cache_background_images` is set.
- **JSON.** Parsing and serialisation are left out. The file is valid JSON (a document), corrupt, or missing. A `_user_last_images` value that is not an object is modelled: recording fails, and `jrys_last` answers "not generated yet" for a list of objects. A user's record that is not an object is not modelled: the record is always a path and a cleanup flag. A fortune field that is present but is not a string (a number, or null) is not modelled either: the four texts are strings or absent. The original passes such a value on instead of the placeholder (painter.py:187-190), `wrap_text` then gives it back as its one line (painter.py:521-523), and `draw_text` skips the caption (painter.py:379-381). `_load_jrys_data` accepts any JSON value and sets the loaded flag (resources.py:624-625), but `Json` holds only an object, so a file whose top level is an array, a string, a number, a boolean or null is not modelled. A file that is not valid UTF-8 raises `UnicodeDecodeError`, which `_load_jrys_data` does not catch, so the handler fails; the model treats such a file as `Corrupt`.
- **Unicode.** `int()` recognises only ASCII digits, and `lower()` lowers only ASCII letters.
- **System-call failures.** A failed `stat` or `unlink` inside a migration or a cleanup is not modelled. A failed `os.replace` is modelled as a named set of failing files.
- **Interruptions.** `wrap_text`'s exception fallback and the outer `except` blocks are left out. So is the "获取头像或背景图片失败" reply, which only follows an exception from unpacking the gathered results.
- **Clock reads.** `datetime.now()` is called three times in `generate_image_sync`. The model reads it once as one `Date`, so a run that crosses midnight is not modelled. Years outside 1000-9999 are excluded by `ValidDate`.
- **Arithmetic.** Floating-point weights are reals, and the rates are non-negative integers (slider values).
- **`choices`.** It is `bisect_right` over the cumulative weights, computed by a scan.
- **Migration.** `_ensure_storage_dirs` returns its migrations as a plan of moves. Each move is modelled by `Migration`. `GetAvatarImg` and `GetBackgroundImage` do not apply that plan, so on their first call they look at the disk as it was before any move; the original moves legacy files first (resources.py:150 and 287-292), so a fresh avatar still in the legacy `avatars` directory is moved and then served from the cache by the original, while the model downloads it again.
- **Configuration.** The painter's constructor reads its settings into a `PainterConfig` value. Fonts and directory creation are left out.
- **The plugin's name.** The resource manager has no `name` attribute, so its data directory is always `plugin_data/unknown`. The model follows the code; the docstring of `_ensure_storage_dirs` (resources.py:258) promises `plugin_data/{plugin_name}`.
- **Pre-cache status.** The resource manager has no `put_kv_data`, so the pre-cache status is never stored. The model follows the code and leaves that status out.
- Resources.BackgroundCandidates: its own contract states only the number of candidates. Which file they come from and how many there are is `Resources.CandidatesOfChosenFile`.
- Resources.PickFromFailsExactly: assumes the downloader's temporary names are free, as fresh uuids are. Without that, a failed download may also delete a file that already had such a name; `Resources.PickFromOnlyAddsFound` still bounds what changes.
- Plugin.JrysPlugin.JrysLast: a `_user_last_images` list holding a non-object, or a string, number, boolean or null, gives no reply. The source answers "not generated yet" when `in` finds no match (for example a string not containing the user id) and raises otherwise. The model does not keep those values' contents, so it cannot tell the two apart.
- Resources.Batch: states only a bound on the downloaded count. The full per-step account is `Resources.BatchStepCountsDelivery`.
