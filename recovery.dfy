/** Standard-mode download: the certificate-failure retry around one yt-dlp
    run, the classification of a failed candidate by its message, and the
    walk down the format cascade. yt-dlp itself is an oracle: it is given
    the attempt number, the selector and whether certificate checking is
    off, and answers with success or an error message. */
module Recovery {
  import opened Text
  import opened Cascade

  /** What one yt-dlp run reports: success, or the text of its exception. */
  datatype Fetch = Ok | Err(msg: string)

  /** The yt-dlp oracle of one standard-mode attempt: the attempt number, the
      selector and the `nocheckcertificate` option decide the result. */
  type Ytdlp = (nat, string, bool) -> Fetch

  /** The markers of a certificate-verification failure
      (youtube_downloader.py:267-270). */
  const SslIndicators: seq<string> := [
    "CERTIFICATE_VERIFY_FAILED", "certificate verify failed",
    "CertificateVerifyError", "[SSL:", "SSL: CERTIFICATE_VERIFY_FAILED"
  ]

  /** Some marker, lower-cased, occurs in `msg`. */
  function AnyIndicator(msg: string, indicators: seq<string>): (b: bool)
    ensures b <==> exists k :: 0 <= k < |indicators| && Contains(msg, Lower(indicators[k]))
  {
    if indicators == [] then false
    else
      Contains(msg, Lower(indicators[0])) || AnyIndicator(msg, indicators[1..])
  }

  /** `_is_ssl_error`: some marker occurs in the message, ignoring case. */
  function IsSslError(msg: string): (b: bool)
    ensures b <==> exists k :: 0 <= k < |SslIndicators| && Contains(Lower(msg), Lower(SslIndicators[k]))
  {
    AnyIndicator(Lower(msg), SslIndicators)
  }

  /** The test ignores the case of the message. */
  lemma SslErrorIgnoresCase(msg: string)
    ensures IsSslError(Lower(msg)) == IsSslError(msg)
  {
    LowerIdempotent(msg);
  }

  /** OpenSSL's `[SSL: ...]` prefix, in any case, marks a certificate failure. */
  lemma OpenSslPrefixIsSslError(msg: string)
    requires IsPrefix("[ssl:", Lower(msg))
    ensures IsSslError(msg)
  {
    assert Lower(SslIndicators[3]) == "[ssl:";
    assert Contains(Lower(msg), Lower(SslIndicators[3]));
  }

  /** The outcome of `_ydl_download_with_ssl_fallback`: the result of the
      last yt-dlp run and the `nocheckcertificate` setting of each run. */
  datatype SslRun = SslRun(result: Fetch, tries: seq<bool>)

  /** `_ydl_download_with_ssl_fallback` (youtube_downloader.py:780-806): one
      run with the caller's options, and a single further run with
      certificate checking off when the first failed on a certificate and
      the downloader is not in insecure mode. */
  function SslFallback(noCheck: bool, insecureSsl: bool, ytdlp: bool -> Fetch): (run: SslRun)
    ensures 1 <= |run.tries| <= 2 && run.tries[0] == noCheck
    ensures |run.tries| == 2 <==> ytdlp(noCheck).Err? && IsSslError(ytdlp(noCheck).msg) && !insecureSsl
    ensures |run.tries| == 2 ==> run.tries[1]
    ensures run.result == ytdlp(run.tries[|run.tries| - 1])
  {
    match ytdlp(noCheck)
    case Ok => SslRun(Ok, [noCheck])
    case Err(e) =>
      if IsSslError(e) && !insecureSsl then SslRun(ytdlp(true), [noCheck, true])
      else SslRun(Err(e), [noCheck])
  }

  /** How the standard-mode loop reads a failure, tested in this order
      (youtube_downloader.py:663-684). */
  datatype ErrorKind = Blocked | Gone | Unavailable | OtherError

  function Classify(msg: string): (k: ErrorKind)
    ensures k == Blocked <==> Contains(msg, "403") || Contains(msg, "Forbidden")
    ensures k == Gone <==> Contains(msg, "404") && !Contains(msg, "403") && !Contains(msg, "Forbidden")
    ensures k == Unavailable <==>
      && !Contains(msg, "403") && !Contains(msg, "Forbidden") && !Contains(msg, "404")
      && Contains(Lower(msg), "not available")
  {
    if Contains(msg, "403") || Contains(msg, "Forbidden") then Blocked
    else if Contains(msg, "404") then Gone
    else if Contains(Lower(msg), "not available") then Unavailable
    else OtherError
  }

  /** The candidate tried at step `i`: the cascade entry after the language rewrite. */
  function Candidate(cascade: seq<string>, lang: Option<string>, i: nat): (sel: string)
    requires i < |cascade|
    ensures sel == cascade[i] || IsSuffix("/" + cascade[i], sel)
    ensures lang.None? ==> sel == cascade[i]
  {
    WithLanguage(cascade[i], lang)
  }

  /** How a walk down the cascade ends: whether it succeeded, how many
      candidates were handed to yt-dlp, and whether an exception left the
      loop in place of a result. */
  datatype Outcome = Outcome(ok: bool, attempts: nat, raised: bool)

  /** A failure at step `k` that ends the loop. One read as `Gone` returns
      False. One read as `Blocked` at the first step raises: `handle_403_error`
      (youtube_downloader.py:85-91) sets a header in the options' `http_headers`,
      which only `get_robust_options` adds, and only from the second step on
      (youtube_downloader.py:646-649), so the KeyError leaves the loop. */
  predicate Stops(k: nat, msg: string) {
    Classify(msg) == Gone || (k == 0 && Classify(msg) == Blocked)
  }

  /** The candidate loop of `_download_standard_mode`
      (youtube_downloader.py:597-696) from step `i` on: a cancellation stops
      it before the step, a success ends it, a failure read as `Gone` ends it
      with failure, a failure read as `Blocked` at the first step raises, and
      every other failure moves on to the next candidate. */
  function Walk(cascade: seq<string>, lang: Option<string>, cancelled: nat -> bool,
                fetch: (nat, string) -> Fetch, i: nat): (o: Outcome)
    requires i <= |cascade|
    ensures i <= o.attempts <= |cascade|
    ensures o.raised ==> !o.ok && i == 0 && o.attempts == 1
    decreases |cascade| - i
  {
    if i == |cascade| || cancelled(i) then Outcome(false, i, false)
    else
      match fetch(i, Candidate(cascade, lang, i))
      case Ok => Outcome(true, i + 1, false)
      case Err(msg) =>
        if Classify(msg) == Gone then Outcome(false, i + 1, false)
        else if i == 0 && Classify(msg) == Blocked then Outcome(false, 1, true)
        else Walk(cascade, lang, cancelled, fetch, i + 1)
  }

  /** Step `k` was tried and failed in a way that lets the loop go on. */
  predicate PassedOn(cascade: seq<string>, lang: Option<string>, cancelled: nat -> bool,
                     fetch: (nat, string) -> Fetch, k: nat)
    requires k < |cascade|
  {
    && !cancelled(k)
    && fetch(k, Candidate(cascade, lang, k)).Err?
    && !Stops(k, fetch(k, Candidate(cascade, lang, k)).msg)
  }

  /** Every step before the last one tried was passed on, and no tried step
      was cancelled. */
  lemma {:induction false} WalkPassesOnBeforeLast(cascade: seq<string>, lang: Option<string>,
                                                  cancelled: nat -> bool, fetch: (nat, string) -> Fetch, i: nat)
    requires i <= |cascade|
    ensures var o := Walk(cascade, lang, cancelled, fetch, i);
      forall k :: i <= k < o.attempts ==> !cancelled(k) && (k + 1 < o.attempts ==> PassedOn(cascade, lang, cancelled, fetch, k))
    decreases |cascade| - i
  {
    if i < |cascade| && !cancelled(i) {
      var r := fetch(i, Candidate(cascade, lang, i));
      if r.Err? && !Stops(i, r.msg) {
        WalkPassesOnBeforeLast(cascade, lang, cancelled, fetch, i + 1);
      }
    }
  }

  /** The walk succeeds exactly when the last candidate it tried succeeded. */
  lemma {:induction false} WalkOkIffLastSucceeded(cascade: seq<string>, lang: Option<string>,
                                                  cancelled: nat -> bool, fetch: (nat, string) -> Fetch, i: nat)
    requires i <= |cascade|
    ensures var o := Walk(cascade, lang, cancelled, fetch, i);
      o.ok <==> o.attempts > i && fetch(o.attempts - 1, Candidate(cascade, lang, o.attempts - 1)).Ok?
    decreases |cascade| - i
  {
    if i < |cascade| && !cancelled(i) {
      var r := fetch(i, Candidate(cascade, lang, i));
      if r.Err? && !Stops(i, r.msg) {
        WalkOkIffLastSucceeded(cascade, lang, cancelled, fetch, i + 1);
      }
    }
  }

  /** A failed walk stopped for one of three reasons: the cascade ran out,
      the download was cancelled before the next step, or the last failure
      ended the loop. */
  lemma {:induction false} WalkFailureReason(cascade: seq<string>, lang: Option<string>,
                                             cancelled: nat -> bool, fetch: (nat, string) -> Fetch, i: nat)
    requires i <= |cascade|
    ensures var o := Walk(cascade, lang, cancelled, fetch, i);
      !o.ok ==>
        || o.attempts == |cascade|
        || cancelled(o.attempts)
        || (o.attempts > i && fetch(o.attempts - 1, Candidate(cascade, lang, o.attempts - 1)).Err?
            && Stops(o.attempts - 1, fetch(o.attempts - 1, Candidate(cascade, lang, o.attempts - 1)).msg))
    decreases |cascade| - i
  {
    if i < |cascade| && !cancelled(i) {
      var r := fetch(i, Candidate(cascade, lang, i));
      if r.Err? && !Stops(i, r.msg) {
        WalkFailureReason(cascade, lang, cancelled, fetch, i + 1);
      }
    }
  }

  /** The walk raises exactly when its first step is not cancelled and
      fails as `Blocked`. */
  lemma WalkRaisesIffFirstBlocked(cascade: seq<string>, lang: Option<string>,
                                  cancelled: nat -> bool, fetch: (nat, string) -> Fetch)
    ensures var o := Walk(cascade, lang, cancelled, fetch, 0);
      o.raised <==>
        && |cascade| > 0 && !cancelled(0) && fetch(0, Candidate(cascade, lang, 0)).Err?
        && Classify(fetch(0, Candidate(cascade, lang, 0)).msg) == Blocked
  {
  }

  /** The first success wins: when every step before `j` was passed on and
      step `j` is not cancelled and succeeds, the walk succeeds after `j + 1`
      attempts. */
  lemma {:induction false} FirstSuccessWins(cascade: seq<string>, lang: Option<string>,
                                            cancelled: nat -> bool, fetch: (nat, string) -> Fetch, i: nat, j: nat)
    requires i <= j < |cascade|
    requires forall k :: i <= k < j ==> PassedOn(cascade, lang, cancelled, fetch, k)
    requires !cancelled(j) && fetch(j, Candidate(cascade, lang, j)).Ok?
    ensures Walk(cascade, lang, cancelled, fetch, i) == Outcome(true, j + 1, false)
    decreases j - i
  {
    if i < j {
      assert PassedOn(cascade, lang, cancelled, fetch, i);
      FirstSuccessWins(cascade, lang, cancelled, fetch, i + 1, j);
    }
  }

  /** `_download_standard_mode`'s loop over the cascade for `quality`. */
  method StandardMode(quality: string, ffmpeg: bool, lang: Option<string>,
                      cancelled: nat -> bool, fetch: (nat, string) -> Fetch)
    returns (ok: bool, attempts: nat, raised: bool)
    ensures Outcome(ok, attempts, raised) == Walk(QualityFallbacks(quality, ffmpeg), lang, cancelled, fetch, 0)
  {
    var cascade := QualityFallbacks(quality, ffmpeg);
    var attempt := 0;
    while attempt < |cascade|
      invariant attempt <= |cascade|
      invariant Walk(cascade, lang, cancelled, fetch, 0) == Walk(cascade, lang, cancelled, fetch, attempt)
      decreases |cascade| - attempt
    {
      if cancelled(attempt) {
        return false, attempt, false;
      }
      var result := fetch(attempt, WithLanguage(cascade[attempt], lang));
      if result.Ok? {
        return true, attempt + 1, false;
      }
      match Classify(result.msg) {
        case Blocked =>
          // the first step's options have no `http_headers` to rewrite
          if attempt == 0 {
            return false, 1, true;
          }
        case Gone =>
          return false, attempt + 1, false;
        case Unavailable =>
        case OtherError =>
          // a delay before the next candidate unless this was the last
      }
      attempt := attempt + 1;
    }
    return false, attempt, false;
  }

  /** The message the loop sees when the SSL wrapper reports failure. */
  const DownloadFailed: string := "Download failed"

  /** One attempt as written (youtube_downloader.py:653-655): the wrapper is
      run on options without `nocheckcertificate` and its `False` becomes the
      fixed message "Download failed". It succeeds when the checked run
      succeeds, or, outside insecure mode only, when that run failed on a
      certificate and the relaxed run succeeds. */
  function AttemptAsWritten(insecureSsl: bool, ytdlp: Ytdlp): (attempt: (nat, string) -> Fetch)
    ensures forall i: nat, sel: string :: attempt(i, sel).Err? ==> attempt(i, sel).msg == DownloadFailed
    ensures forall i: nat, sel: string :: attempt(i, sel).Ok? <==>
      (ytdlp(i, sel, false).Ok? || (!insecureSsl && IsSslError(ytdlp(i, sel, false).msg) && ytdlp(i, sel, true).Ok?))
  {
    (i: nat, sel: string) =>
      if SslFallback(false, insecureSsl, (f: bool) => ytdlp(i, sel, f)).result.Ok? then Ok
      else Err(DownloadFailed)
  }

  /** One attempt as evidently intended: the options carry
      `nocheckcertificate` in insecure mode, as every other yt-dlp call of the
      downloader does, and the last yt-dlp error reaches the classification.
      Its answer is that of a run with checking off exactly when insecure
      mode is on or the checked run failed on a certificate. */
  function Attempt(insecureSsl: bool, ytdlp: Ytdlp): (attempt: (nat, string) -> Fetch)
    ensures forall i: nat, sel: string ::
      attempt(i, sel) == ytdlp(i, sel, insecureSsl || (ytdlp(i, sel, false).Err? && IsSslError(ytdlp(i, sel, false).msg)))
  {
    (i: nat, sel: string) => SslFallback(insecureSsl, insecureSsl, (f: bool) => ytdlp(i, sel, f)).result
  }

  /** A message without the characters that the markers of the first three
      kinds need is read as `OtherError`. */
  lemma OtherErrorByChars(m: string)
    requires '3' !in m && 'F' !in m && '4' !in m && 'v' !in m && 'V' !in m
    ensures Classify(m) == OtherError
  {
    NotContainsByChar(m, "403", '3');
    NotContainsByChar(m, "Forbidden", 'F');
    NotContainsByChar(m, "404", '4');
    assert forall k :: 0 <= k < |m| ==> Lower(m)[k] != 'v';
    NotContainsByChar(Lower(m), "not available", 'v');
  }

  lemma DownloadFailedIsOtherError()
    ensures Classify(DownloadFailed) == OtherError
  {
    OtherErrorByChars(DownloadFailed);
  }

  /** As written, no failure ever aborts the walk: a failed walk either ran
      out of candidates or was cancelled, and it never raises. */
  lemma AsWrittenNeverAborts(cascade: seq<string>, lang: Option<string>, cancelled: nat -> bool,
                             insecureSsl: bool, ytdlp: Ytdlp)
    ensures var o := Walk(cascade, lang, cancelled, AttemptAsWritten(insecureSsl, ytdlp), 0);
      !o.raised && (!o.ok ==> o.attempts == |cascade| || cancelled(o.attempts))
  {
    DownloadFailedIsOtherError();
    FixedMessageNeverAborts(cascade, lang, cancelled, AttemptAsWritten(insecureSsl, ytdlp), DownloadFailed);
  }

  /** A walk whose failures all carry one message that is read as neither
      `Gone` nor `Blocked` never stops early on a failure and never raises. */
  lemma FixedMessageNeverAborts(cascade: seq<string>, lang: Option<string>, cancelled: nat -> bool,
                                fetch: (nat, string) -> Fetch, m: string)
    requires Classify(m) != Gone && Classify(m) != Blocked
    requires forall i: nat, sel: string :: fetch(i, sel).Err? ==> fetch(i, sel).msg == m
    ensures var o := Walk(cascade, lang, cancelled, fetch, 0);
      !o.raised && (!o.ok ==> o.attempts == |cascade| || cancelled(o.attempts))
  {
    WalkFailureReason(cascade, lang, cancelled, fetch, 0);
    WalkRaisesIffFirstBlocked(cascade, lang, cancelled, fetch);
  }

  /** yt-dlp's message for a video that does not exist. */
  const NotFound: string := "HTTP Error 404: Not Found"

  /** A message that holds `404` but neither `403` nor `Forbidden` is read as `Gone`. */
  lemma GoneByChars(m: string, i: nat)
    requires i + 3 <= |m| && m[i..i + 3] == "404"
    requires '3' !in m && 'b' !in m
    ensures Classify(m) == Gone
  {
    NotContainsByChar(m, "403", '3');
    NotContainsByChar(m, "Forbidden", 'b');
    ContainsAt(m, "404", i);
  }

  lemma NotFoundIsGone()
    ensures Classify(NotFound) == Gone
  {
    GoneByChars(NotFound, 11);
  }

  /** When every run of yt-dlp fails with the same message read as `Gone`,
      the walk as written tries every candidate of the cascade, while with
      the message passed on it stops after the first. */
  lemma GoneWalksWholeCascade(cascade: seq<string>, lang: Option<string>, insecureSsl: bool, m: string)
    requires |cascade| > 0 && Classify(m) == Gone
    ensures var never := (k: nat) => false;
      var ytdlp := (k: nat, s: string, f: bool) => Err(m);
      && Walk(cascade, lang, never, AttemptAsWritten(insecureSsl, ytdlp), 0) == Outcome(false, |cascade|, false)
      && Walk(cascade, lang, never, Attempt(insecureSsl, ytdlp), 0) == Outcome(false, 1, false)
  {
    var never := (k: nat) => false;
    var ytdlp := (k: nat, s: string, f: bool) => Err(m);
    AsWrittenTriesAll(cascade, lang, never, insecureSsl, ytdlp, m);
    IntendedStopsFirst(cascade, lang, never, insecureSsl, ytdlp, m);
  }

  /** As written, a walk that is never cancelled and whose every yt-dlp run
      fails tries every candidate. */
  lemma AsWrittenTriesAll(cascade: seq<string>, lang: Option<string>, cancelled: nat -> bool,
                          insecureSsl: bool, ytdlp: Ytdlp, m: string)
    requires forall k :: !cancelled(k)
    requires forall k: nat, sel: string, f: bool :: ytdlp(k, sel, f) == Err(m)
    ensures Walk(cascade, lang, cancelled, AttemptAsWritten(insecureSsl, ytdlp), 0) == Outcome(false, |cascade|, false)
  {
    AsWrittenAllFail(insecureSsl, ytdlp, m);
    DownloadFailedIsOtherError();
    FailingWalkTriesAll(cascade, lang, cancelled, AttemptAsWritten(insecureSsl, ytdlp), DownloadFailed);
  }

  /** As written, an attempt fails with `Download failed` whenever every
      yt-dlp run of it fails. */
  lemma AsWrittenAllFail(insecureSsl: bool, ytdlp: Ytdlp, m: string)
    requires forall k: nat, sel: string, f: bool :: ytdlp(k, sel, f) == Err(m)
    ensures forall i: nat, sel: string :: AttemptAsWritten(insecureSsl, ytdlp)(i, sel) == Err(DownloadFailed)
  {
    forall i: nat, sel: string ensures AttemptAsWritten(insecureSsl, ytdlp)(i, sel) == Err(DownloadFailed) {
      assert ytdlp(i, sel, false) == Err(m);
    }
  }

  /** A walk that is never cancelled and whose every attempt fails with one
      message read as neither `Gone` nor `Blocked` tries every candidate. */
  lemma FailingWalkTriesAll(cascade: seq<string>, lang: Option<string>, cancelled: nat -> bool,
                            fetch: (nat, string) -> Fetch, m: string)
    requires forall k :: !cancelled(k)
    requires Classify(m) != Gone && Classify(m) != Blocked
    requires forall i: nat, sel: string :: fetch(i, sel) == Err(m)
    ensures Walk(cascade, lang, cancelled, fetch, 0) == Outcome(false, |cascade|, false)
  {
    FixedMessageNeverAborts(cascade, lang, cancelled, fetch, m);
    WalkOkIffLastSucceeded(cascade, lang, cancelled, fetch, 0);
  }

  /** With the message passed on, a walk whose every yt-dlp run fails with a
      message read as `Gone` stops after the first candidate. */
  lemma IntendedStopsFirst(cascade: seq<string>, lang: Option<string>, cancelled: nat -> bool,
                           insecureSsl: bool, ytdlp: Ytdlp, m: string)
    requires |cascade| > 0 && !cancelled(0) && Classify(m) == Gone
    requires forall k: nat, sel: string, f: bool :: ytdlp(k, sel, f) == Err(m)
    ensures Walk(cascade, lang, cancelled, Attempt(insecureSsl, ytdlp), 0) == Outcome(false, 1, false)
  {
    var sel := Candidate(cascade, lang, 0);
    assert ytdlp(0, sel, false) == Err(m) && ytdlp(0, sel, true) == Err(m);
    SslFallbackAllFail(insecureSsl, insecureSsl, (f: bool) => ytdlp(0, sel, f), m);
    IntendedWalkStopsOnGone(cascade, lang, cancelled, insecureSsl, ytdlp);
  }

  /** When every run fails with the same message, so does the wrapper. */
  lemma SslFallbackAllFail(noCheck: bool, insecureSsl: bool, ytdlp: bool -> Fetch, m: string)
    requires ytdlp(false) == Err(m) && ytdlp(true) == Err(m)
    ensures SslFallback(noCheck, insecureSsl, ytdlp).result == Err(m)
  {
  }

  /** The counterexample: yt-dlp answers 404 for every candidate. */
  lemma NotFoundWalksWholeCascade(cascade: seq<string>, lang: Option<string>, insecureSsl: bool)
    requires |cascade| > 0
    ensures var never := (k: nat) => false;
      var ytdlp := (k: nat, s: string, f: bool) => Err(NotFound);
      && Walk(cascade, lang, never, AttemptAsWritten(insecureSsl, ytdlp), 0) == Outcome(false, |cascade|, false)
      && Walk(cascade, lang, never, Attempt(insecureSsl, ytdlp), 0) == Outcome(false, 1, false)
  {
    NotFoundIsGone();
    GoneWalksWholeCascade(cascade, lang, insecureSsl, NotFound);
  }

  /** With the message passed on, a failure read as `Gone` on the first step
      ends the walk there. */
  lemma IntendedWalkStopsOnGone(cascade: seq<string>, lang: Option<string>, cancelled: nat -> bool,
                                insecureSsl: bool, ytdlp: Ytdlp)
    requires |cascade| > 0 && !cancelled(0)
    requires var r := Attempt(insecureSsl, ytdlp)(0, Candidate(cascade, lang, 0)); r.Err? && Classify(r.msg) == Gone
    ensures Walk(cascade, lang, cancelled, Attempt(insecureSsl, ytdlp), 0) == Outcome(false, 1, false)
  {
  }

  /** With the message passed on, a failure read as `Blocked` on the first
      step raises out of the loop after one attempt. As written the branch
      is never reached, since the message is always `Download failed`. */
  lemma IntendedBlockedFirstRaises(cascade: seq<string>, lang: Option<string>, cancelled: nat -> bool,
                                   insecureSsl: bool, ytdlp: Ytdlp)
    requires |cascade| > 0 && !cancelled(0)
    requires var r := Attempt(insecureSsl, ytdlp)(0, Candidate(cascade, lang, 0)); r.Err? && Classify(r.msg) == Blocked
    ensures Walk(cascade, lang, cancelled, Attempt(insecureSsl, ytdlp), 0) == Outcome(false, 1, true)
  {
  }

  /** A failure read as `Blocked` after the first step moves on to the next
      candidate. */
  lemma BlockedLaterMovesOn(cascade: seq<string>, lang: Option<string>, cancelled: nat -> bool,
                            fetch: (nat, string) -> Fetch, i: nat)
    requires 0 < i < |cascade| && !cancelled(i)
    requires var r := fetch(i, Candidate(cascade, lang, i)); r.Err? && Classify(r.msg) == Blocked
    ensures Walk(cascade, lang, cancelled, fetch, i) == Walk(cascade, lang, cancelled, fetch, i + 1)
  {
  }

  /** What yt-dlp reports for a server whose certificate does not verify:
      OpenSSL's `[SSL: ...]` prefix and its reason. */
  const OpenSslPrefix: string := "[SSL: "
  const CertFailure: string := OpenSslPrefix + "CERTIFICATE_VERIFY_FAILED] certificate verify failed"

  lemma CertFailureIsSslError()
    ensures IsSslError(CertFailure)
  {
    var m := CertFailure;
    assert Lower(m)[..5] == "[ssl:" by {
      assert m[..6] == OpenSslPrefix;
      assert Lower(m)[0] == LowerChar('[') && Lower(m)[1] == LowerChar('S') && Lower(m)[2] == LowerChar('S');
      assert Lower(m)[3] == LowerChar('L') && Lower(m)[4] == LowerChar(':');
    }
    OpenSslPrefixIsSslError(m);
  }

  /** Against a server that only a run with checking off gets through, and
      whose certificate failure is recognised, the download as written fails
      in insecure mode (checking stays on and the relaxed retry is skipped)
      while it succeeds in the default mode; the intended attempt succeeds in
      insecure mode too. */
  lemma InsecureModeAsWrittenFails(m: string, sel: string)
    requires IsSslError(m)
    ensures var ytdlp := (k: nat, s: string, f: bool) => if f then Ok else Err(m);
      && AttemptAsWritten(true, ytdlp)(0, sel) == Err(DownloadFailed)
      && AttemptAsWritten(false, ytdlp)(0, sel) == Ok
      && Attempt(true, ytdlp)(0, sel) == Ok
  {
  }

  /** The counterexample: the certificate failure above. */
  lemma CertFailureInsecureModeAsWrittenFails(sel: string)
    ensures var ytdlp := (k: nat, s: string, f: bool) => if f then Ok else Err(CertFailure);
      && AttemptAsWritten(true, ytdlp)(0, sel) == Err(DownloadFailed)
      && AttemptAsWritten(false, ytdlp)(0, sel) == Ok
      && Attempt(true, ytdlp)(0, sel) == Ok
  {
    CertFailureIsSslError();
    InsecureModeAsWrittenFails(CertFailure, sel);
  }

  /** As intended, insecure mode runs yt-dlp once, with checking off. */
  lemma IntendedInsecureModeSkipsChecking(ytdlp: Ytdlp, i: nat, sel: string)
    ensures Attempt(true, ytdlp)(i, sel) == ytdlp(i, sel, true)
    ensures SslFallback(true, true, (f: bool) => ytdlp(i, sel, f)).tries == [true]
  {
  }
}
