# YouTube Downloader core in Dafny

A model of the decision logic of a YouTube downloader built on yt-dlp, and of
the bookkeeping of its Flask web front end, with proofs of what that logic
promises. yt-dlp, FFmpeg, MoviePy, the file system probes, the clock and HTTP
are not modelled; their answers are inputs.

Modules:

- `Text` (text.dfy): the Python string operations the core relies on. These are
  `lower`, `in`, `startswith`/`endswith`, `split`, `count`, `join` and
  `os.path.basename`.
- `Cascade` (cascade.dfy): the tables of yt-dlp format selectors tried per
  quality tier, with FFmpeg and without it (`_get_quality_fallbacks`). Also the
  audio-language rewrite of a selector in standard mode.
- `Recovery` (recovery.dfy): SSL error recognition (`_is_ssl_error`) and the
  download wrapper with one relaxed-certificate retry
  (`_ydl_download_with_ssl_fallback`). It also covers how standard mode reads
  a failure and its loop over the candidate selectors.
- `Selection` (selection.dfy): the choice of the video and audio formats for a
  separate-stream download (`_select_formats`).
- `Modes` (modes.dfy): the choice between the audio-only, separate-stream and
  standard paths (`download`), and how the separate-stream path ends.
- `Validation` (validation.dfy): the repair of a finished file
  (`_validate_and_fix_file`). The file system is the class `Disk`, with a map
  from path to content token.
- `Naming` (naming.dfy): the output template and the final output path.
- `Progress` (progress.dfy): the web downloader's tracking state, modelled as
  the class `WebDownloader`. It holds the active and completed dictionaries,
  the progress hook, cancellation, and the setting up and ending of a download
  task, including its notices.
- `WebInfo` (webinfo.dfy): the quality labels and audio languages listed for
  a video. It also holds the name check and the fallback name match of
  `download_by_filename`.

## Model

| member | source | states |
|---|---|---|
| Text.JoinSplit | youtube_downloader.py:612 | Splitting a selector on `+` loses nothing: joining the parts with `+` gives the selector back |
| Text.SplitPartsFree | youtube_downloader.py:612 | No part of a split holds the separator |
| Text.BaseName | web_app.py:608 | The base name holds no `/` and is a suffix of the path |
| Cascade.TierBest | youtube_downloader.py:1043-1051 | The `best` tier exists exactly with FFmpeg; its cascade is well formed (at least five candidates, ends with `best`) |
| Cascade.TierK4 | youtube_downloader.py:1052-1060 | The `4k` cascade is well formed for both FFmpeg states and ends with `best` |
| Cascade.TierP1440 | youtube_downloader.py:1061-1069 | The `1440p` cascade is well formed for both FFmpeg states and ends with `best` |
| Cascade.TierP1080 | youtube_downloader.py:1070-1078 | The `1080p` cascade is well formed for both FFmpeg states and ends with `best` |
| Cascade.TierP720 | youtube_downloader.py:1079-1087 | The `720p` cascade is well formed for both FFmpeg states and ends with `best` |
| Cascade.TierP480 | youtube_downloader.py:1088-1095 | The `480p` cascade is well formed for both FFmpeg states and ends with `best` |
| Cascade.TierP360 | youtube_downloader.py:1096-1103 | The `360p` cascade is well formed for both FFmpeg states and ends with `best` |
| Cascade.TierP240 | youtube_downloader.py:1104-1111 | The `240p` cascade is well formed; it ends with `best` with FFmpeg and with `worst` without it |
| Cascade.TierP144 | youtube_downloader.py:1112-1119 | The `144p` cascade is well formed; it ends with `best` with FFmpeg and with `worst` without it |
| Cascade.Table | youtube_downloader.py:1040-1187 | Every cascade in either table is well formed; without FFmpeg none holds a split `video+audio` selector |
| Cascade.DefaultCascade | youtube_downloader.py:1189-1195 | An unknown tier gets five candidates ending with `best`, well formed for both FFmpeg states |
| Cascade.QualityFallbacks | youtube_downloader.py:1032-1195 | Every tier name, known or not, gets a well-formed cascade |
| Cascade.LookupIgnoresCase | youtube_downloader.py:1189 | The cascade depends only on the lower-cased tier name |
| Cascade.BestWithoutFfmpegIsDefault | youtube_downloader.py:1127-1195 | Without FFmpeg, `best` has no table entry and gets the default cascade |
| Cascade.LowestTiersEndWithWorst | youtube_downloader.py:1174-1186 | Without FFmpeg, the 240p and 144p cascades end with `worst` |
| Cascade.LowerCaseLookup | youtube_downloader.py:1189 | A lower-case tier present in the table gets the table's cascade |
| Cascade.FirstSelectorDigit480 | youtube_downloader.py:1088-1166 | The first 480p candidate names a height starting with 4, with FFmpeg and without it |
| Cascade.FirstSelectorDigit360 | youtube_downloader.py:1096-1173 | The first 360p candidate names a height starting with 3 |
| Cascade.FirstSelectorDigit240 | youtube_downloader.py:1104-1180 | The first 240p candidate names a height starting with 2 |
| Cascade.FirstSelectorDigit144 | youtube_downloader.py:1112-1186 | The first 144p candidate names a height starting with 1 |
| Cascade.FirstSelectors480And360Differ | test_quality_fix.py:93 | 480p and 360p have different first selectors, with or without FFmpeg |
| Cascade.FirstSelectors360And240Differ | test_quality_fix.py:94 | 360p and 240p have different first selectors |
| Cascade.FirstSelectors240And144Differ | test_quality_fix.py:95 | 240p and 144p have different first selectors |
| Cascade.LanguageFilter | youtube_downloader.py:614-617 | The language filter is a `[language=...]` bracket |
| Cascade.WithLanguage | youtube_downloader.py:604-617 | A selector is changed exactly when a language is chosen and it holds at most one `+`; a changed selector keeps the original as its last `/` alternative |
| Cascade.WithLanguageCases | youtube_downloader.py:609-617 | The three rewrites: a filter on a single-file selector, `+bestaudio[language=..]` after the video part of a two-part one, none for more parts |
| Cascade.CombinedCascadeRewrite | youtube_downloader.py:1128-1186 | Without FFmpeg every candidate of every cascade gets its language-filtered variant in front of it |
| Recovery.AnyIndicator | youtube_downloader.py:271 | True exactly when some lower-cased marker occurs in the message |
| Recovery.IsSslError | youtube_downloader.py:265-271 | True exactly when one of the five markers occurs in the message, both lower-cased |
| Recovery.SslErrorIgnoresCase | youtube_downloader.py:271 | Lower-casing the message never changes the answer |
| Recovery.OpenSslPrefixIsSslError | youtube_downloader.py:267-271 | A message starting with `[SSL:` in any case is an SSL error |
| Recovery.SslFallback | youtube_downloader.py:780-806 | yt-dlp runs once with the caller's options, and a second time with checking off exactly when the first run failed with an SSL error outside insecure mode; the result is the last run's |
| Recovery.Classify | youtube_downloader.py:663-684 | A failure is read as blocked exactly when it mentions 403 or Forbidden, as not-found exactly when it mentions 404 and neither of those, and as unavailable exactly when it mentions none of the three and its lower-cased text holds `not available` |
| Recovery.Candidate | youtube_downloader.py:597-617 | The selector tried at a step is the cascade entry, or a rewrite of it that keeps it as the last alternative; without a language it is the entry itself |
| Recovery.Walk | youtube_downloader.py:597-696 | The number of attempts lies between the starting step and the cascade's length; the loop raises only from its first step, after one attempt and without success |
| Recovery.WalkRaisesIffFirstBlocked | youtube_downloader.py:663-668 | The loop raises exactly when its first step is not cancelled and fails as blocked: the first step's options have no `http_headers` for `handle_403_error` to set (youtube_downloader.py:91), since `get_robust_options` only runs from the second step on (youtube_downloader.py:646-649) |
| Recovery.BlockedLaterMovesOn | youtube_downloader.py:663-672 | A blocked failure after the first step moves on to the next candidate |
| Recovery.IntendedBlockedFirstRaises | youtube_downloader.py:663-668 | With yt-dlp's error passed on, a blocked first attempt raises out of the loop after one attempt |
| Recovery.WalkPassesOnBeforeLast | youtube_downloader.py:597-696 | No tried step was cancelled, and every step before the last one tried failed in a way that lets the loop go on |
| Recovery.WalkOkIffLastSucceeded | youtube_downloader.py:653-657 | The loop succeeds exactly when its last attempt succeeded |
| Recovery.WalkFailureReason | youtube_downloader.py:597-696 | A failed loop ran out of candidates, was cancelled, or stopped on a not-found failure or a blocked first step |
| Recovery.FirstSuccessWins | youtube_downloader.py:597-657 | When every earlier step was passed on and step j succeeds, the loop succeeds after j+1 attempts |
| Recovery.StandardMode | youtube_downloader.py:578-696 | The imperative loop over the tier's cascade gives the outcome of the walk, including the exception from a blocked first step |
| Recovery.DownloadFailedIsOtherError | youtube_downloader.py:653-655 | The fixed message `Download failed` is read as an ordinary failure |
| Recovery.AsWrittenNeverAborts | youtube_downloader.py:653-684 | As written, the loop never raises, and a failed loop either ran out of candidates or was cancelled: no failure stops it early |
| Recovery.AttemptAsWritten | youtube_downloader.py:651-655 | As written, every failed attempt reaches the loop as the message `Download failed`; an attempt succeeds exactly when the checked run succeeds or, outside insecure mode only, that run failed on a certificate and the relaxed run succeeds |
| Recovery.Attempt | youtube_downloader.py:780-806 | As intended, an attempt answers with the run that has checking off exactly when insecure mode is on or the checked run failed on a certificate, and passes that run's error on |
| Recovery.FixedMessageNeverAborts | youtube_downloader.py:663-684 | A loop whose failures all carry one message read as neither not-found nor blocked never raises and never stops early on a failure |
| Recovery.FailingWalkTriesAll | youtube_downloader.py:597-684 | A loop that is never cancelled and whose every attempt fails with such a message fails after trying every candidate |
| Recovery.AsWrittenAllFail | youtube_downloader.py:653-657 | As written, an attempt fails with `Download failed` whenever every yt-dlp run of it fails |
| Recovery.AsWrittenTriesAll | youtube_downloader.py:597-684 | As written, a loop that is never cancelled and whose every run fails ends with failure after trying every candidate |
| Recovery.IntendedStopsFirst | youtube_downloader.py:663-676 | With the error passed on, a loop whose every run fails with a not-found message stops after the first candidate |
| Recovery.SslFallbackAllFail | youtube_downloader.py:780-806 | When every yt-dlp run fails with one message, the SSL wrapper fails with that message |
| Recovery.NotFoundIsGone | youtube_downloader.py:674-676 | yt-dlp's `HTTP Error 404: Not Found` is read as not-found |
| Recovery.GoneWalksWholeCascade | youtube_downloader.py:653-676 | For a video that answers not-found to every run, the loop as written tries every candidate; with the error passed on it stops after one |
| Recovery.NotFoundWalksWholeCascade | youtube_downloader.py:653-676 | The same, for a 404 on every run |
| Recovery.IntendedWalkStopsOnGone | youtube_downloader.py:674-676 | With yt-dlp's error passed on, a not-found first attempt ends the loop with failure after one attempt |
| Recovery.CertFailureIsSslError | youtube_downloader.py:265-271 | OpenSSL's certificate failure message is an SSL error |
| Recovery.InsecureModeAsWrittenFails | youtube_downloader.py:780-806 | A server that only a run with checking off gets through fails in insecure mode as written, succeeds in the default mode, and succeeds in insecure mode as intended |
| Recovery.CertFailureInsecureModeAsWrittenFails | youtube_downloader.py:780-806 | The same for OpenSSL's certificate failure |
| Recovery.IntendedInsecureModeSkipsChecking | youtube_downloader.py:259-263 | As intended, insecure mode runs yt-dlp once, with checking off |
| Selection.OrElse | youtube_downloader.py:853 | Python's `x or y` gives a truthy value exactly when one of the two is truthy |
| Selection.RateOr | youtube_downloader.py:880-885 | Python's `x or y or 0` on two rates: the first rate when it is present and non-zero, else the second when it is, else 0 |
| Selection.Reliability | youtube_downloader.py:830-834 | The score is 1 exactly when the protocol mentions https and not m3u8 and the note is not `Untested`, else 0 |
| Selection.TargetHeight | youtube_downloader.py:812-816 | The target height is one of the table's; a tier outside the table aims at 1080 |
| Selection.VideoKey | youtube_downloader.py:876-881 | The video key has four components |
| Selection.AudioKey | youtube_downloader.py:883-886 | The audio key has two components |
| Selection.LexTotal | youtube_downloader.py:876-886 | Python's order on keys of one width is total |
| Selection.LexTransitive | youtube_downloader.py:876-886 | Python's order on keys is transitive |
| Selection.FirstMinUnique | youtube_downloader.py:889-890 | The element a stable sort puts first is unique |
| Selection.FirstMin | youtube_downloader.py:876-890 | Finds an eligible entry exactly when one exists; it has no larger key than any eligible entry and a smaller key than every earlier one |
| Selection.VideoEligible | youtube_downloader.py:824-827 | Marks exactly the fetchable video-only formats |
| Selection.AudioEligible | youtube_downloader.py:840-857 | Marks exactly the fetchable audio-only formats in the chosen language, or all of them when none is chosen |
| Selection.GenericAudio | youtube_downloader.py:871 | `bestaudio`, with the language filter when a language is chosen |
| Selection.SelectFormats | youtube_downloader.py:808-912 | The generic selectors when either stream has no candidate; otherwise the ids of the formats a stable sort by the keys puts first, video-only and audio-only, the audio in the chosen language |
| Selection.LowTiersAimAt1080 | youtube_downloader.py:812-816 | 240p and 144p aim at 1080 |
| Modes.ResolveMode | youtube_downloader.py:473-476 | `auto` becomes `ultra` exactly with FFmpeg and `standard` without it; other modes are kept |
| Modes.ChooseRoute | youtube_downloader.py:469-497 | Audio-only always wins; the separate-stream path is taken exactly with MoviePy, the mode resolving to `ultra`, and a probe that fails or shows a video stream |
| Modes.Download | youtube_downloader.py:469-576 | Audio-only reports the audio download's result; a download routed to standard mode (including an `ultra` request whose probe shows no video stream) reports standard mode's; one on the separate-stream path succeeds exactly when that path finishes with success or hands over and standard mode succeeds; any success came from one of the three paths |
| Modes.UltraMode | youtube_downloader.py:505-576 | Without FFmpeg it hands over; it succeeds exactly when not cancelled, described, fetched and merged, and fails exactly on cancellation or no description |
| Modes.WithoutFfmpegOnlyStandard | youtube_downloader.py:469-497 | Without FFmpeg a video download has the result of standard mode |
| Modes.WithoutMoviePyNoUltra | youtube_downloader.py:481-497 | Without MoviePy the separate-stream path is never taken |
| Modes.AudioOnlyProbeMeansStandard | youtube_downloader.py:481-492 | A probe with no video stream sends the download to standard mode |
| Modes.AutoSuccessSources | youtube_downloader.py:469-497 | A successful `auto` download came from standard mode or from a merge with FFmpeg and MoviePy |
| Validation.Suffix | youtube_downloader.py:314 | A suffix is empty or a dot and at least one character, ending the name |
| Validation.Stem | youtube_downloader.py:317 | Stem and suffix put together give the name back |
| Validation.RemuxTarget | youtube_downloader.py:314-317 | The target stays in the directory, ends with `.mp4` and is never the file itself |
| Validation.SuffixDiffersFromFixed | youtube_downloader.py:316-317 | `<stem>_fixed.mp4` is never the name itself |
| Validation.Mp4RemuxesToFixed | youtube_downloader.py:314-317 | A `.mp4` file is remuxed into `<stem>_fixed.mp4` |
| Validation.Backup | youtube_downloader.py:324 | The backup name is the name with `.orig` appended |
| Validation.TargetDistinct | youtube_downloader.py:314-324 | The target is neither the file nor its backup |
| Validation.Disk.ValidateAndFix | youtube_downloader.py:296-333 | None for a missing file, or for an empty name that needs a remux; the file unchanged when no remux is needed or it failed; else the remuxed content under the original name, with the original kept as backup |
| Validation.NeedsRemux | youtube_downloader.py:307-312 | A file is left as it is exactly when the probe gives both a duration and a width, each positive |
| Validation.BackupPreserved | youtube_downloader.py:324-327 | An existing backup is never overwritten; otherwise the backup holds the original content |
| Validation.AfterRemux | youtube_downloader.py:318-328 | After a repair the file holds the remuxed content and the target name no longer exists |
| Validation.RemuxFrame | youtube_downloader.py:319-328 | After a repair the file holds the remuxed content, the target is gone and every other file is untouched |
| Naming.Sanitize | youtube_downloader.py:1201 | Same length; each unsafe character becomes `_` and every other is kept; no unsafe character remains |
| Naming.SanitizeKeepsSafeNames | youtube_downloader.py:1201 | A name without unsafe characters is kept as it is |
| Naming.SanitizeIdempotent | youtube_downloader.py:1201 | Sanitizing twice is sanitizing once |
| Naming.OutputTemplate | youtube_downloader.py:1197-1205 | A path in the download directory ending with `.mp3` or `.%(ext)s`, whose name is the sanitized output name or `%(title)s` |
| Naming.OutputPath | youtube_downloader.py:1207-1213 | A path in the download directory ending with `.mp4`, whose name is the sanitized output name, else the sanitized title |
| Naming.OutputPathStaysInDir | youtube_downloader.py:1207-1213 | The final path's file part holds no separator |
| Naming.TemplateAndPathShareName | youtube_downloader.py:1197-1213 | With an output name, the template and the final path name the same file |
| Progress.Fresh | web_app.py:101-112 | A new entry starts at 0%, not cancelled, with no error and no bytes |
| Progress.OnDownloading | web_app.py:122-130 | Status `downloading` and the byte count; total and percentage change only with a non-zero total (percentage only with a byte count); nothing else changes |
| Progress.OnCompleted | web_app.py:152-160 | Status `completed` at 100%, with the file's base name and path; nothing else changes |
| Progress.Hook | web_app.py:116-163 | A missing or empty current id, or one no longer active, leaves the store as it is; no other id's entry ever changes |
| Progress.HookPreserves | web_app.py:116-163 | Completed entries stay at 100% and active ones uncompleted; no id is in both dictionaries afterwards if none was before |
| Progress.FragmentIgnored | web_app.py:133-135 | A fragment finishing changes nothing |
| Progress.PartialStreamProcessing | web_app.py:139-148 | One stream of a video download finishing marks the entry `processing`, nothing else |
| Progress.IsPartialStream | web_app.py:139-144 | A name mentioning video or audio, or ending in `.webm` or `.m4a`, counts as one stream; a name not counted mentions neither `temp` nor `tmp` |
| Progress.CompletionMovesEntry | web_app.py:150-163 | A whole file finishing moves the entry to the completed dictionary at 100%, naming the file |
| Progress.CompletedIsFinal | web_app.py:116-163 | Once completed, later events leave the store unchanged |
| Progress.NoticesTrimmed | web_app.py:402-409 | Both notices start and end with visible characters |
| Progress.Strip | web_app.py:403 | Strip never lengthens, and a trimmed text is kept |
| Progress.JoinTrimmed | web_app.py:410 | Two trimmed texts joined by a space stay as they are under strip |
| Progress.Notices | web_app.py:400-413 | Nothing to add keeps the prior notice; with no prior notice there is one exactly when a notice is due |
| Progress.NoticeText | web_app.py:400-413 | For a new entry: the SSL warning, the FFmpeg notice, or both joined by a space, SSL first |
| Progress.WebDownloader.constructor | web_app.py:94-96 | No current id, both dictionaries empty, the invariant holds |
| Progress.WebDownloader.SetDownloadId | web_app.py:98-114 | The id becomes current with a fresh entry; nothing else changes; the download is not cancelled |
| Progress.WebDownloader.ProgressHook | web_app.py:116-167 | The store becomes Hook of the old store; the invariant holds |
| Progress.WebDownloader.Cancel | web_app.py:193-201 | Accepted exactly for a present active id, which alone gets the cancel flag; a refused call changes nothing |
| Progress.WebDownloader.IsCancelled | youtube_downloader.py:245-253 | As intended: cancelled only for a present active id, and then exactly when its entry carries the cancel flag |
| Progress.WebDownloader.IsCancelledAsWritten | youtube_downloader.py:245-253 | As written: the lookup goes to the imported copy of `active_downloads`, which stays empty, so a valid downloader is never cancelled |
| Progress.CancelUnseenAsWritten | web_app.py:193-201 | A started download cancelled through the web app is seen as cancelled by the intended check and not by the check as written |
| Progress.WebDownloader.RecordRequest | web_app.py:396-413 | An active entry records the quality, the SSL choice and the notices; others are unchanged |
| Progress.WebDownloader.BeginTask | web_app.py:387-413 | The task's options become the downloader's; the id's entry is a fresh one with the request recorded; the old SSL choice is returned |
| Progress.WebDownloader.EndTask | web_app.py:414-422 | A failure marks an active entry `error` with its message; the SSL choice is restored |
| WebInfo.Bucket | web_app.py:298-321 | No label below 100; otherwise the label whose floor is reached and the one above is not |
| WebInfo.BucketMonotone | web_app.py:298-321 | A taller format never gets a shorter label |
| WebInfo.NominalInOwnBucket | web_app.py:298-321 | Each nominal height falls in its own label's range |
| WebInfo.LabelOf | web_app.py:295-296 | A label exactly for a non-zero integer height of at least 100 |
| WebInfo.QualitySet | web_app.py:294-321 | Every label found is one of the eight |
| WebInfo.QualitySetMembers | web_app.py:294-321 | A label is found exactly when some format has it |
| WebInfo.IndicesMembers | web_app.py:336-340 | The listed labels are exactly those found |
| WebInfo.IndicesIncreasing | web_app.py:336-340 | The labels are listed in table order, each once |
| WebInfo.OrderedDescending | web_app.py:336-340 | The list holds each label found once, tallest nominal height first |
| WebInfo.Ordered | web_app.py:336-340 | The list names the labels at the listed indices |
| WebInfo.LanguageEntry | web_app.py:324-328 | An entry exactly for an audio format with a code other than `unknown`; the name is `language_name` or the code |
| WebInfo.LanguageMap | web_app.py:324-328 | `unknown` and the empty code never appear |
| WebInfo.LanguageMapKeys | web_app.py:324-328 | A code is listed exactly when some audio format has it |
| WebInfo.StrLessTotal | web_app.py:346 | Python's string order is total |
| WebInfo.StrLessTransitive | web_app.py:346 | Python's string order is transitive |
| WebInfo.InsertKey | web_app.py:346 | Inserting a new code into a sorted list keeps it sorted and adds exactly that code |
| WebInfo.Items | web_app.py:343-347 | Listing a map by its sorted keys gives each code-to-name pair once, in increasing order of code |
| WebInfo.ExtractInfo | web_app.py:285-347 | The qualities are the ordered labels found; the languages are the code-to-name pairs, each once, sorted by code |
| WebInfo.TestHeights | test_quality_fix.py:16-27 | The test's heights give exactly 1080p, 720p, 480p, 360p, 240p and 144p |
| WebInfo.TestHeightsOrder | test_quality_fix.py:67-69 | Those labels are listed from 1080p down to 144p |
| WebInfo.FindFile | web_app.py:604-648 | A refused name gets nothing; a name that is a file is served; otherwise the first listed file that matches, and nothing exactly when none matches |
| WebInfo.SafeName | web_app.py:617-623 | An accepted name has no `/` and is neither `.` nor `..` |
| WebInfo.RequestName | web_app.py:607-614 | With an identity decoding the name has no `/`; a path ending in `/` gives the decoded empty name |
| WebInfo.Matches | web_app.py:633-643 | A listed file equal to the name, or any file for an empty name, matches |
| WebInfo.FirstMatch | web_app.py:631-645 | The first listed file that matches, and nothing exactly when none does |
| WebInfo.TraversalRefused | web_app.py:622-623 | A name with `..` is never served |
| WebInfo.EmptyNameServesFirstFile | web_app.py:608-645 | As written, a request path ending in `/` is served the first listed file |
| WebInfo.FindFileChecked | web_app.py:604-648 | A file is served only for a non-empty safe name: that name or the first file that matches it |
| WebInfo.CheckedRefusesTrailingSlash | web_app.py:608-645 | With the empty name refused, a request path ending in `/` is served nothing |

## Left out

- yt-dlp, FFmpeg, MoviePy and ffprobe are not modelled. Their answers are inputs: a fetch result, a probe value, a remux result, a merge flag.
- The random sleeps between attempts and the retry option rewrites (`get_robust_options`, `handle_403_error`) are left out, except for the one effect they have on control flow: `handle_403_error` raises on the first step's options, which have no `http_headers` (modelled by Recovery.Walk's `raised` outcome). Apart from that they only change yt-dlp options, whose effect on the download is part of yt-dlp's answer (an input).
- `print` output and the console colours are left out.
- Recovery.Walk: the code never retries a blocked (403) candidate. A blocked failure after the first step goes on to the next candidate of the `for` loop whichever branch of the 403 test (youtube_downloader.py:663-672) is taken, and at the first step `handle_403_error` raises a KeyError that leaves the loop; the model does the same.
- Progress: cancelling a download sets a `cancelled` flag on its entry and does not change its status (web_app.py:200); the model does the same. The flag is meant to be read by the download loops (`IsCancelled`), but as written they read a second, empty copy of the dictionary (`IsCancelledAsWritten`, fourth finding).
- Validation.Disk.ValidateAndFix: a rename that raises after a successful remux (the code then returns the target path, youtube_downloader.py:329-330) is not modelled; renames here always succeed.
- Selection.SelectFormats: the `_reliability_score` key that the source writes into each format dictionary is computed as a function (Selection.Reliability) instead of being stored back into the input. The two sorts are replaced by one scan for the element a stable sort puts first, which is the only element the source uses.
- Selection.Reliability: a `protocol` or `format_note` key that is present but None makes the `in` tests of youtube_downloader.py:832 and 847 raise TypeError in the source; the model treats a missing or None value of either key as empty.
- Python floats are modelled as Dafny `real`: the rates and sort keys in Selection (`tbr`, `vbr`, `abr`), the probed duration and width in Validation.NeedsRemux, and the percentage in Progress.OnDownloading (web_app.py:126-128) are exact, so rounding, NaN and infinity are not modelled.
- WebInfo.SafeName: POSIX separators are assumed; only `/` is refused, and `os.path.altsep` (a Windows `\`) is not checked.
- Text.Lower and Progress.Strip: lower-casing and whitespace are ASCII only; Python's Unicode rules are not modelled.
- Text.BaseName: paths are not normalised. A completed file path that ends in `/` gets an empty base name here, where `Path.name` would drop the trailing separator.
- Validation: paths are a directory and a name; `Path.resolve` and symbolic links are not modelled.
- Modes: the separate-stream path's temporary directory and its two stream downloads (`_download_separate_streams`) are represented by the flags they end with; the audio-only download (`_download_audio_only`) is a boolean input.
- WebInfo.RequestName: URL decoding (`unquote`) is an input function; `validate_safe_path` and the existence checks are the `direct` flag, and the directory listing is an input sequence of file names in listing order.
- WebInfo.ExtractInfo: the language list is kept sorted as codes are found instead of being sorted at the end; the result is the same list.
- Progress: the clock (`datetime.now()`) is an input string; the SSE progress stream, the HTTP responses and the thread that runs a task are not modelled, and the downloader's result inside a task is an input (`EndTask`'s failure message).
- Progress.WebDownloader.BeginTask: the thread-safety of the two global dictionaries is not modelled; tasks run one at a time.

## Findings

| source | as written | input that shows it | evidently intended | confidence | as-written member | corrected member |
|---|---|---|---|---|---|---|
| youtube_downloader.py:653-677 | The wrapper swallows yt-dlp's error and returns False, so the loop always sees the message `Download failed`; the 403, 404 and not-available branches can never be taken | yt-dlp answers `HTTP Error 404: Not Found` for every candidate: all candidates are tried | A 404 ends the loop after the first attempt | medium, not executed | Recovery.NotFoundWalksWholeCascade | Recovery.IntendedWalkStopsOnGone |
| youtube_downloader.py:780-806 | Standard mode never puts `nocheckcertificate` into its options, and the wrapper skips the relaxed retry in insecure mode, so insecure mode verifies certificates with no fallback | A server whose certificate fails to verify: the download fails with insecure SSL on and succeeds with it off | Insecure mode runs yt-dlp with checking off | medium, not executed | Recovery.CertFailureInsecureModeAsWrittenFails | Recovery.IntendedInsecureModeSkipsChecking |
| web_app.py:608-645 | A request path ending in `/` has an empty base name, which passes every check, is not a file, and is contained in every name, so the first file of the download directory is served | `/download_by_filename/x/` with any file present | An empty name is refused | medium, not executed | WebInfo.EmptyNameServesFirstFile | WebInfo.FindFileChecked |
| youtube_downloader.py:245-253 | `_is_cancelled` imports `active_downloads` from `web_app`, but web_app.py runs as a script (launcher.py:73, web_app.py:824), so the import loads a second copy of the module whose dictionary nothing writes; the cancel flag set at web_app.py:200 is never seen | Start a download, then cancel it through the web app: `_is_cancelled` returns False and the download goes on | The download loops see the flag and stop | medium, not executed | Progress.CancelUnseenAsWritten | Progress.WebDownloader.Cancel |
