/** The web front end's record of each download: an entry per download id
    in `active_downloads` while it runs, moved to `completed_downloads` when
    the whole file is finished. `WebDownloader` creates the entry, the
    progress hook advances it, a cancel request flags it, and the download
    task records a failure in it. The two dictionaries are fields of the
    downloader object here; the clock is an input. */
module Progress {
  import opened Text

  /** The `status` value of an entry. */
  datatype Status = Starting | Downloading | Processing | Completed | Error

  /** One entry of `active_downloads` or `completed_downloads`. `filePath`,
      `requestedQuality`, `insecureSsl` and `notice` are keys that appear
      only once set; `error` is None until a failure is recorded. */
  datatype Entry = Entry(
    status: Status,
    progress: real,
    filename: string,
    filePath: Option<string>,
    ultraMode: bool,
    error: Option<string>,
    startedAt: string,
    downloadedBytes: int,
    totalBytes: int,
    audioOnly: bool,
    cancelled: bool,
    requestedQuality: Option<string>,
    insecureSsl: Option<bool>,
    notice: Option<string>)

  /** The entry `set_download_id` creates (web_app.py:101-112). */
  function Fresh(ultraMode: bool, audioOnly: bool, startedAt: string): (e: Entry)
    ensures e.status == Starting && e.progress == 0.0 && e.filename == "" && !e.cancelled
    ensures e.error.None? && e.downloadedBytes == 0 && e.totalBytes == 0
    ensures e.ultraMode == ultraMode && e.audioOnly == audioOnly && e.startedAt == startedAt
  {
    Entry(Starting, 0.0, "", None, ultraMode, None, startedAt, 0, 0, audioOnly, false, None, None, None)
  }

  /** A progress event from yt-dlp, reduced to the keys the hook reads. An
      event whose `status` is missing or neither `downloading` nor
      `finished` is `OtherEvent`. */
  datatype Event =
    | DownloadingEvent(downloaded: Option<int>, total: Option<int>)
    | FinishedEvent(filename: Option<string>, fragment: bool)
    | OtherEvent

  /** Both dictionaries. */
  datatype Store = Store(active: map<string, Entry>, completed: map<string, Entry>)

  /** A `downloading` event (web_app.py:122-130): status `downloading`, the
      byte count (0 when missing) and the audio-only flag when the
      downloader has one. Total and percentage change only when the event
      carries a non-zero total; with a total but no byte count the lookup
      of the count fails after the total is stored, so the percentage stays. */
  function OnDownloading(e: Entry, downloaded: Option<int>, total: Option<int>, audioAttr: Option<bool>): (r: Entry)
    ensures r.status == Downloading && r.downloadedBytes == downloaded.GetOr(0)
    ensures r.audioOnly == audioAttr.GetOr(e.audioOnly)
    ensures r.totalBytes == (if TruthyInt(total) then total.value else e.totalBytes)
    ensures TruthyInt(total) && downloaded.Some? ==>
      r.progress == downloaded.value as real / total.value as real * 100.0
    ensures !(TruthyInt(total) && downloaded.Some?) ==> r.progress == e.progress
    ensures r.(status := e.status, downloadedBytes := e.downloadedBytes, audioOnly := e.audioOnly,
               totalBytes := e.totalBytes, progress := e.progress) == e
  {
    var e1 := e.(status := Downloading, downloadedBytes := downloaded.GetOr(0), audioOnly := audioAttr.GetOr(e.audioOnly));
    if TruthyInt(total) then
      var e2 := e1.(totalBytes := total.value);
      if downloaded.Some? then e2.(progress := downloaded.value as real / total.value as real * 100.0) else e2
    else e1
  }

  /** A finished file that looks like one stream of a separate-stream
      download: its lower-cased name mentions temp, tmp, audio or video, or
      it ends with `.webm` or `.m4a` (web_app.py:142-144). The whole name is
      tested, so a final file whose title mentions a video is one too. */
  predicate IsPartialStream(filename: string): (b: bool)
    ensures Contains(Lower(filename), "video") || Contains(Lower(filename), "audio") ==> b
    ensures IsSuffix(".webm", filename) || IsSuffix(".m4a", filename) ==> b
    ensures !b ==> !Contains(Lower(filename), "temp") && !Contains(Lower(filename), "tmp")
  {
    var l := Lower(filename);
    || Contains(l, "temp") || Contains(l, "tmp") || Contains(l, "audio") || Contains(l, "video")
    || IsSuffix(".webm", filename) || IsSuffix(".m4a", filename)
  }

  /** The entry on completion (web_app.py:152-160). */
  function OnCompleted(e: Entry, path: string, audioAttr: Option<bool>): (r: Entry)
    ensures r.status == Completed && r.progress == 100.0
    ensures r.filename == BaseName(path) && r.filePath == Some(path)
    ensures r.audioOnly == audioAttr.GetOr(e.audioOnly)
    ensures r.(status := e.status, progress := e.progress, filename := e.filename,
               filePath := e.filePath, audioOnly := e.audioOnly) == e
  {
    e.(status := Completed, progress := 100.0, filename := BaseName(path), filePath := Some(path),
       audioOnly := audioAttr.GetOr(e.audioOnly))
  }

  /** The effect of `_web_progress_hook` (web_app.py:116-163) on both
      dictionaries, for the downloader's current id and audio-only
      attribute. A missing or empty id changes nothing. */
  function Hook(s: Store, id: Option<string>, audioAttr: Option<bool>, ev: Event): (r: Store)
    ensures !Truthy(id) || id.value !in s.active ==> r == s
    ensures Truthy(id) ==> r.active - {id.value} == s.active - {id.value}
    ensures Truthy(id) ==> r.completed - {id.value} == s.completed - {id.value}
  {
    if !Truthy(id) || id.value !in s.active then s
    else
      var k := id.value;
      var info := s.active[k];
      match ev
      case DownloadingEvent(downloaded, total) =>
        s.(active := s.active[k := OnDownloading(info, downloaded, total, audioAttr)])
      case FinishedEvent(filename, fragment) =>
        if fragment then s
        else if !audioAttr.GetOr(false) && IsPartialStream(filename.GetOr("")) then
          s.(active := s.active[k := info.(status := Processing)])
        else if filename.None? then s
        else
          var done := OnCompleted(info, filename.value, audioAttr);
          Store(s.active - {k}, s.completed[k := done])
      case OtherEvent => s
  }

  /** Completed entries are finished at 100%; active ones are not completed. */
  predicate Consistent(s: Store) {
    && (forall k :: k in s.completed ==> s.completed[k].status == Completed && s.completed[k].progress == 100.0)
    && (forall k :: k in s.active ==> s.active[k].status != Completed)
  }

  /** No id is in both dictionaries. */
  predicate Disjoint(s: Store) {
    forall k :: k in s.active ==> k !in s.completed
  }

  /** The hook keeps both invariants. */
  lemma HookPreserves(s: Store, id: Option<string>, audioAttr: Option<bool>, ev: Event)
    requires Consistent(s)
    ensures Consistent(Hook(s, id, audioAttr, ev))
    ensures Disjoint(s) ==> Disjoint(Hook(s, id, audioAttr, ev))
  {
  }

  /** A fragment finishing changes nothing. */
  lemma FragmentIgnored(s: Store, id: Option<string>, audioAttr: Option<bool>, filename: Option<string>)
    ensures Hook(s, id, audioAttr, FinishedEvent(filename, true)) == s
  {
  }

  /** One stream of a video download finishing marks the entry `processing`
      and leaves it active, with nothing else changed. */
  lemma PartialStreamProcessing(s: Store, id: string, audioAttr: Option<bool>, filename: Option<string>)
    requires id != "" && id in s.active && !audioAttr.GetOr(false) && IsPartialStream(filename.GetOr(""))
    ensures var r := Hook(s, Some(id), audioAttr, FinishedEvent(filename, false));
      && r.completed == s.completed
      && r.active == s.active[id := s.active[id].(status := Processing)]
  {
  }

  /** A whole file finishing moves the entry, completed at 100% and naming
      the file, from the active to the completed dictionary. */
  lemma CompletionMovesEntry(s: Store, id: string, audioAttr: Option<bool>, path: string)
    requires id != "" && id in s.active && (audioAttr.GetOr(false) || !IsPartialStream(path))
    ensures var r := Hook(s, Some(id), audioAttr, FinishedEvent(Some(path), false));
      && id !in r.active && id in r.completed
      && r.completed[id].status == Completed && r.completed[id].progress == 100.0
      && r.completed[id].filename == BaseName(path) && r.completed[id].filePath == Some(path)
  {
  }

  /** Once an entry has been completed, every later event for it leaves both
      dictionaries as they are. */
  lemma CompletedIsFinal(s: Store, id: string, audioAttr: Option<bool>, path: string, next: Event)
    requires id != "" && id in s.active && (audioAttr.GetOr(false) || !IsPartialStream(path))
    ensures var r := Hook(s, Some(id), audioAttr, FinishedEvent(Some(path), false));
      Hook(r, Some(id), audioAttr, next) == r
  {
    CompletionMovesEntry(s, id, audioAttr, path);
  }

  /** The download notice of a new task (web_app.py:400-413): the SSL
      warning when certificate checks are off, then the FFmpeg notice when
      FFmpeg is missing and the quality asked for is neither `360p` nor
      `best`, joined by a space. */
  // The texts are written in short pieces, which the verifier handles far
  // more cheaply than one long literal.
  const SslWarning := "SSL" + " verification" + " disabled" + " for this" + " download."

  function FfmpegNotice(quality: string): string {
    "Requested " + quality + ", but only" + " 360p" + " available" + " due to no" + " FFmpeg."
      + " Install" + " FFmpeg for" + " higher" + " quality" + " downloads."
  }

  /** The two notices start and end with visible characters. */
  lemma NoticesTrimmed(quality: string)
    ensures |SslWarning| > 0 && !IsSpace(SslWarning[0]) && !IsSpace(SslWarning[|SslWarning| - 1])
    ensures var f := FfmpegNotice(quality);
      |f| > 0 && !IsSpace(f[0]) && !IsSpace(f[|f| - 1])
  {
    var f := FfmpegNotice(quality);
    assert f[0] == 'R';
  }

  predicate NeedsFfmpegNotice(ffmpeg: bool, quality: string) {
    !ffmpeg && Lower(quality) != "360p" && Lower(quality) != "best"
  }

  /** Python's whitespace for `str.strip`, restricted to ASCII. */
  predicate IsSpace(c: char) {
    c == ' ' || c == '\t' || c == '\n' || c == '\r' || c == '\U{0B}' || c == '\U{0C}'
  }

  /** `str.strip()`. */
  function Strip(s: string): (r: string)
    ensures |r| <= |s|
    ensures |s| > 0 && !IsSpace(s[0]) && !IsSpace(s[|s| - 1]) ==> r == s
    decreases |s|
  {
    if |s| > 0 && IsSpace(s[0]) then Strip(s[1..])
    else if |s| > 0 && IsSpace(s[|s| - 1]) then Strip(s[..|s| - 1])
    else s
  }

  /** Joining two trimmed texts with a space gives a trimmed text. */
  lemma JoinTrimmed(a: string, b: string)
    requires |a| > 0 && !IsSpace(a[0]) && |b| > 0 && !IsSpace(b[|b| - 1])
    ensures Strip(a + " " + b) == a + " " + b
  {
    var s := a + " " + b;
    assert s[0] == a[0] && s[|s| - 1] == b[|b| - 1];
  }

  /** `f"{notices} {extra}".strip() if notices else extra`. */
  function AddNotice(notices: Option<string>, extra: string): string {
    if Truthy(notices) then Strip(notices.value + " " + extra) else extra
  }

  /** The notice after a task's additions to the entry's notice `prior`:
      the notice is kept as it was when there is nothing to add. */
  function Notices(prior: Option<string>, insecure: bool, ffmpeg: bool, quality: string): (r: Option<string>)
    ensures !insecure && !NeedsFfmpegNotice(ffmpeg, quality) ==> r == prior
    ensures prior.None? ==> (r.Some? <==> insecure || NeedsFfmpegNotice(ffmpeg, quality))
  {
    NoticesTrimmed(quality);
    var n1 := if insecure then Some(AddNotice(prior, SslWarning)) else prior;
    var n2 := if NeedsFfmpegNotice(ffmpeg, quality) then Some(AddNotice(n1, FfmpegNotice(quality))) else n1;
    if Truthy(n2) then n2 else prior
  }

  /** For a new entry, which has no notice yet, the notice holds the SSL
      warning exactly when certificate checks are off and the FFmpeg notice
      exactly when that notice is due, the SSL warning first and the two
      separated by one space. */
  lemma NoticeText(insecure: bool, ffmpeg: bool, quality: string)
    ensures var r := Notices(None, insecure, ffmpeg, quality);
      && (insecure && !NeedsFfmpegNotice(ffmpeg, quality) ==> r == Some(SslWarning))
      && (!insecure && NeedsFfmpegNotice(ffmpeg, quality) ==> r == Some(FfmpegNotice(quality)))
      && (insecure && NeedsFfmpegNotice(ffmpeg, quality) ==> r == Some(SslWarning + " " + FfmpegNotice(quality)))
  {
    NoticesTrimmed(quality);
    JoinTrimmed(SslWarning, FfmpegNotice(quality));
  }

  /** An entry with the task's request recorded in it (web_app.py:396-413). */
  function WithRequest(e: Entry, quality: string, insecure: bool, ffmpeg: bool): Entry {
    e.(requestedQuality := Some(quality), insecureSsl := Some(insecure),
       notice := Notices(e.notice, insecure, ffmpeg, quality))
  }

  /** Updating a key twice keeps the second value. */
  lemma UpdateTwice<K, V>(m: map<K, V>, k: K, a: V, b: V)
    ensures m[k := a][k := b] == m[k := b]
  {
  }

  /** The web downloader's tracking state. `audioOnly` is the instance
      attribute, None until the first task sets it; `ultraAvailable` is the
      merger's availability. `imported` is the `active_downloads` that
      `_is_cancelled` imports: web_app.py runs as a script (launcher.py:73,
      web_app.py:824), so `from web_app import active_downloads` loads a
      second copy of the module whose dictionary (web_app.py:88) nothing
      writes. */
  class WebDownloader {
    var downloadId: Option<string>
    var audioOnly: Option<bool>
    var audioLanguage: Option<string>
    var insecureSsl: bool
    const ultraAvailable: bool
    var active: map<string, Entry>
    var completed: map<string, Entry>
    var imported: map<string, Entry>

    function State(): Store
      reads this`active, this`completed
    {
      Store(active, completed)
    }

    predicate Valid()
      reads this`active, this`completed, this`imported
    {
      Consistent(State()) && imported == map[]
    }

    constructor(ultraAvailable: bool)
      ensures this.ultraAvailable == ultraAvailable
      ensures downloadId.None? && audioOnly.None? && audioLanguage.None? && !insecureSsl
      ensures active == map[] && completed == map[] && imported == map[]
      ensures Valid()
    {
      this.ultraAvailable := ultraAvailable;
      downloadId := None;
      audioOnly := None;
      audioLanguage := None;
      insecureSsl := false;
      active := map[];
      completed := map[];
      imported := map[];
    }

    /** `_is_cancelled` (youtube_downloader.py:245-253) as intended: the
        current entry of the dictionary `cancel_download` writes carries
        the cancel flag. */
    predicate IsCancelled(): (b: bool)
      reads this`downloadId, this`active
      ensures b ==> downloadId.Some? && downloadId.value in active
      ensures downloadId.Some? && downloadId.value in active ==> (b <==> active[downloadId.value].cancelled)
    {
      downloadId.Some? && downloadId.value in active && active[downloadId.value].cancelled
    }

    /** `_is_cancelled` as written: it looks the id up in the imported copy
        of the dictionary, which stays empty, so a valid downloader is never
        seen as cancelled. */
    predicate IsCancelledAsWritten(): (b: bool)
      reads this`downloadId, this`active, this`completed, this`imported
      ensures Valid() ==> !b
      ensures b <==> downloadId.Some? && downloadId.value in imported && imported[downloadId.value].cancelled
    {
      downloadId.Some? && downloadId.value in imported && imported[downloadId.value].cancelled
    }

    /** `set_download_id` (web_app.py:98-114): the id becomes current and
        gets a fresh `starting` entry. */
    method SetDownloadId(id: string, startedAt: string)
      requires Valid()
      modifies this
      ensures Valid()
      ensures downloadId == Some(id)
      ensures active == old(active)[id := Fresh(ultraAvailable, old(audioOnly).GetOr(false), startedAt)]
      ensures completed == old(completed)
      ensures audioOnly == old(audioOnly) && audioLanguage == old(audioLanguage) && insecureSsl == old(insecureSsl)
      ensures !IsCancelled()
    {
      downloadId := Some(id);
      active := active[id := Fresh(ultraAvailable, audioOnly.GetOr(false), startedAt)];
    }

    /** `_web_progress_hook` (web_app.py:116-167). */
    method ProgressHook(ev: Event)
      requires Valid()
      modifies this
      ensures Valid()
      ensures State() == Hook(old(State()), downloadId, audioOnly, ev)
      ensures downloadId == old(downloadId) && audioOnly == old(audioOnly)
      ensures audioLanguage == old(audioLanguage) && insecureSsl == old(insecureSsl)
    {
      HookPreserves(State(), downloadId, audioOnly, ev);
      if !Truthy(downloadId) || downloadId.value !in active {
        return;
      }
      var id := downloadId.value;
      var info := active[id];
      match ev {
        case DownloadingEvent(downloaded, total) =>
          active := active[id := OnDownloading(info, downloaded, total, audioOnly)];
        case FinishedEvent(filename, fragment) =>
          if fragment {
            return;
          }
          if !audioOnly.GetOr(false) && IsPartialStream(filename.GetOr("")) {
            active := active[id := info.(status := Processing)];
            return;
          }
          if filename.None? {
            return;
          }
          completed := completed[id := OnCompleted(info, filename.value, audioOnly)];
          active := active - {id};
        case OtherEvent =>
      }
    }

    /** `cancel_download` (web_app.py:193-201): a present id of an active
        download gets the cancel flag; a missing or unknown id is refused
        and nothing changes. */
    method Cancel(id: Option<string>) returns (ok: bool)
      requires Valid()
      modifies this
      ensures Valid()
      ensures ok <==> Truthy(id) && id.value in old(active)
      ensures ok ==> active == old(active)[id.value := old(active)[id.value].(cancelled := true)]
      ensures !ok ==> active == old(active)
      ensures ok && downloadId == Some(id.value) ==> IsCancelled()
      ensures completed == old(completed) && downloadId == old(downloadId)
      ensures audioOnly == old(audioOnly) && audioLanguage == old(audioLanguage) && insecureSsl == old(insecureSsl)
    {
      if !Truthy(id) || id.value !in active {
        return false;
      }
      var k := id.value;
      active := active[k := active[k].(cancelled := true)];
      return true;
    }

    /** The request recorded in the entry, when the id is still active
        (web_app.py:396-413). */
    method RecordRequest(id: string, quality: string, insecure: bool, ffmpeg: bool)
      requires Valid()
      modifies this
      ensures Valid()
      ensures id in old(active) ==> active == old(active)[id := WithRequest(old(active)[id], quality, insecure, ffmpeg)]
      ensures id !in old(active) ==> active == old(active)
      ensures completed == old(completed) && downloadId == old(downloadId) && insecureSsl == old(insecureSsl)
      ensures audioOnly == old(audioOnly) && audioLanguage == old(audioLanguage)
    {
      if id in active {
        active := active[id := WithRequest(active[id], quality, insecure, ffmpeg)];
      }
    }

    /** The set-up part of `start_download`'s task (web_app.py:387-413):
        the task's options become the downloader's, the id gets a fresh
        entry, and the entry records the request. Returns the previous SSL
        choice, which the task restores at its end. */
    method BeginTask(id: string, quality: string, audioOnly: bool, audioLanguage: Option<string>,
                     insecure: bool, ffmpeg: bool, startedAt: string)
      returns (prevInsecure: bool)
      requires Valid()
      modifies this
      ensures Valid()
      ensures prevInsecure == old(insecureSsl) && insecureSsl == insecure
      ensures this.audioOnly == Some(audioOnly) && this.audioLanguage == audioLanguage
      ensures downloadId == Some(id) && completed == old(completed)
      ensures active == old(active)[id := WithRequest(Fresh(ultraAvailable, audioOnly, startedAt), quality, insecure, ffmpeg)]
    {
      prevInsecure := insecureSsl;
      insecureSsl := insecure;
      this.audioOnly := Some(audioOnly);
      this.audioLanguage := audioLanguage;
      SetDownloadId(id, startedAt);
      ghost var entry := Fresh(ultraAvailable, audioOnly, startedAt);
      ghost var afterSet := active;
      RecordRequest(id, quality, insecure, ffmpeg);
      ghost var req := WithRequest(entry, quality, insecure, ffmpeg);
      assert afterSet[id] == entry;
      assert active == afterSet[id := req];
      UpdateTwice(old(active), id, entry, req);
    }

    /** The end of the task (web_app.py:414-422): a failed download, given
        as its message (`Download failed` for a False result, the exception
        text otherwise), marks a still-active entry as an error; a completed
        entry is left alone. The previous SSL choice is restored. */
    method EndTask(id: string, failure: Option<string>, prevInsecure: bool)
      requires Valid()
      modifies this
      ensures Valid()
      ensures insecureSsl == prevInsecure && completed == old(completed)
      ensures failure.Some? && id in old(active) ==>
        active == old(active)[id := old(active)[id].(status := Error, error := failure)]
      ensures failure.None? || id !in old(active) ==> active == old(active)
      ensures downloadId == old(downloadId) && audioOnly == old(audioOnly) && audioLanguage == old(audioLanguage)
    {
      if failure.Some? && id in active {
        active := active[id := active[id].(status := Error, error := failure)];
      }
      insecureSsl := prevInsecure;
    }
  }

  /** A download that is started and then cancelled through the web
      interface (web_app.py:98-114, 193-201): the intended check sees the
      cancellation, the check as written does not, so the download loops
      (youtube_downloader.py:514, 598) go on. */
  method CancelUnseenAsWritten(id: string, startedAt: string) returns (intended: bool, asWritten: bool)
    requires id != ""
    ensures intended && !asWritten
  {
    var d := new WebDownloader(false);
    d.SetDownloadId(id, startedAt);
    var ok := d.Cancel(Some(id));
    intended := d.IsCancelled();
    asWritten := d.IsCancelledAsWritten();
  }
}
