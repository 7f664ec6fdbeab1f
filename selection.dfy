/** `_select_formats`: the choice of one video-only and one audio-only format
    for a separate-stream download, from the format list that yt-dlp reports
    for a video. */
module Selection {
  import opened Text

  /** One entry of yt-dlp's format list; every field may be missing. */
  datatype Format = Format(
    formatId: Option<string>,
    url: Option<string>,
    vcodec: Option<string>,
    acodec: Option<string>,
    height: Option<int>,
    protocol: Option<string>,
    formatNote: Option<string>,
    language: Option<string>,
    lang: Option<string>,
    languageName: Option<string>,
    tbr: Option<real>,
    vbr: Option<real>,
    abr: Option<real>)

  /** Python's `x or y` on two optional values: the first if it is truthy. */
  function OrElse(x: Option<string>, y: Option<string>): (r: Option<string>)
    ensures Truthy(r) <==> Truthy(x) || Truthy(y)
  {
    if Truthy(x) then x else y
  }

  /** Python's `x or y or 0` on two optional rates. */
  function RateOr(x: Option<real>, y: Option<real>): (r: real)
    ensures x.Some? && x.value != 0.0 ==> r == x.value
    ensures (x.None? || x.value == 0.0) && y.Some? && y.value != 0.0 ==> r == y.value
    ensures (x.None? || x.value == 0.0) && (y.None? || y.value == 0.0) ==> r == 0.0
  {
    if x.Some? && x.value != 0.0 then x.value
    else if y.Some? && y.value != 0.0 then y.value
    else 0.0
  }

  /** A codec field that names a codec: present, non-empty and not `none`. */
  predicate HasCodec(codec: Option<string>) {
    Truthy(codec) && codec.value != "none"
  }

  /** A format with a video stream and no audio stream that can be fetched
      (youtube_downloader.py:824-827). */
  predicate IsVideoOnly(f: Format) {
    && HasCodec(f.vcodec)
    && (f.acodec == Some("none") || !Truthy(f.acodec))
    && TruthyInt(f.height)
    && Truthy(f.formatId)
    && Truthy(f.url)
  }

  /** A format with an audio stream and no video stream that can be fetched
      (youtube_downloader.py:840-842). */
  predicate IsAudioOnly(f: Format) {
    && HasCodec(f.acodec)
    && (f.vcodec == Some("none") || !Truthy(f.vcodec))
    && Truthy(f.formatId)
    && Truthy(f.url)
  }

  /** The language of an audio format: `language`, else `lang`. */
  function LanguageOf(f: Format): Option<string> {
    OrElse(f.language, f.lang)
  }

  /** An audio format is kept when no language is chosen, or when its
      language is the chosen one (youtube_downloader.py:852-857). */
  predicate SpeaksLanguage(f: Format, chosen: Option<string>) {
    !Truthy(chosen) || (Truthy(LanguageOf(f)) && LanguageOf(f).value == chosen.value)
  }

  /** A reliable format is fetched over https, not as an m3u8 playlist, and
      is not marked untested; a missing protocol or note counts as empty
      (youtube_downloader.py:830-834). */
  function Reliability(f: Format): (r: int)
    ensures r == 1 <==> Contains(f.protocol.GetOr(""), "https") && !Contains(f.protocol.GetOr(""), "m3u8")
                        && !Contains(f.formatNote.GetOr(""), "Untested")
    ensures r == 0 || r == 1
  {
    var protocol := f.protocol.GetOr("");
    var note := f.formatNote.GetOr("");
    if Contains(protocol, "https") && !Contains(protocol, "m3u8") && !Contains(note, "Untested") then 1 else 0
  }

  /** The height each tier aims at; a tier not listed (240p and 144p among
      them) aims at 1080 (youtube_downloader.py:812-816). */
  function TargetHeight(quality: string): (h: int)
    ensures h in {2160, 1440, 1080, 720, 480, 360}
    ensures Lower(quality) !in {"best", "4k", "1440p", "1080p", "720p", "480p", "360p"} ==> h == 1080
  {
    var key := Lower(quality);
    if key == "best" || key == "4k" then 2160
    else if key == "1440p" then 1440
    else if key == "1080p" then 1080
    else if key == "720p" then 720
    else if key == "480p" then 480
    else if key == "360p" then 360
    else 1080
  }

  function Abs(n: int): nat {
    if n < 0 then -n else n
  }

  /** Python's tuple order on tuples of the same length. */
  predicate LexLess(a: seq<real>, b: seq<real>)
    decreases |a|
  {
    |a| > 0 && |b| > 0 && (a[0] < b[0] || (a[0] == b[0] && LexLess(a[1..], b[1..])))
  }

  lemma {:induction false} LexIrreflexive(a: seq<real>)
    ensures !LexLess(a, a)
    decreases |a|
  {
    if |a| > 0 {
      LexIrreflexive(a[1..]);
    }
  }

  lemma {:induction false} LexTransitive(a: seq<real>, b: seq<real>, c: seq<real>)
    requires LexLess(a, b) && LexLess(b, c)
    ensures LexLess(a, c)
    decreases |a|
  {
    if a[0] == b[0] && b[0] == c[0] {
      LexTransitive(a[1..], b[1..], c[1..]);
    }
  }

  lemma {:induction false} LexTotal(a: seq<real>, b: seq<real>)
    requires |a| == |b|
    ensures LexLess(a, b) || LexLess(b, a) || a == b
    decreases |a|
  {
    if |a| > 0 && a[0] == b[0] {
      LexTotal(a[1..], b[1..]);
      if a[1..] == b[1..] {
        assert a == [a[0]] + a[1..] && b == [b[0]] + b[1..];
      }
    }
  }

  /** The video sort key: reliable first, then closest to the target height,
      then taller, then higher bitrate (youtube_downloader.py:876-881). */
  function VideoKey(f: Format, target: int): (k: seq<real>)
    ensures |k| == 4
  {
    var h := f.height.GetOr(0);
    [-(Reliability(f) as real), Abs(h - target) as real, -(h as real), -RateOr(f.tbr, f.vbr)]
  }

  /** The audio sort key: reliable first, then higher bitrate
      (youtube_downloader.py:883-886). */
  function AudioKey(f: Format): (k: seq<real>)
    ensures |k| == 2
  {
    [-(Reliability(f) as real), -RateOr(f.abr, f.tbr)]
  }

  /** `best` is what a stable sort puts first among the eligible entries:
      no eligible entry has a smaller key, and every eligible entry before
      it has a larger one. */
  predicate IsFirstMin(eligible: seq<bool>, keys: seq<seq<real>>, best: nat)
    requires |eligible| == |keys|
  {
    && best < |keys| && eligible[best]
    && (forall j :: 0 <= j < |keys| && eligible[j] ==> !LexLess(keys[j], keys[best]))
    && (forall j :: 0 <= j < best && eligible[j] ==> LexLess(keys[best], keys[j]))
  }

  predicate SameWidth(keys: seq<seq<real>>) {
    forall j, k :: 0 <= j < |keys| && 0 <= k < |keys| ==> |keys[j]| == |keys[k]|
  }

  /** The first entry of a stable sort is determined: two entries that both
      satisfy IsFirstMin are the same entry. */
  lemma FirstMinUnique(eligible: seq<bool>, keys: seq<seq<real>>, b1: nat, b2: nat)
    requires |eligible| == |keys|
    requires IsFirstMin(eligible, keys, b1) && IsFirstMin(eligible, keys, b2)
    ensures b1 == b2
  {
  }

  /** The element a stable sort by `keys` puts first among the eligible
      entries, found by one scan that keeps the first of equal keys. */
  method FirstMin(eligible: seq<bool>, keys: seq<seq<real>>) returns (found: bool, best: nat)
    requires |eligible| == |keys| && SameWidth(keys)
    ensures found <==> true in eligible
    ensures found ==> IsFirstMin(eligible, keys, best)
  {
    found, best := false, 0;
    var i := 0;
    while i < |keys|
      invariant i <= |keys|
      invariant found <==> true in eligible[..i]
      invariant found ==> best < i && eligible[best]
      invariant found ==> forall j :: 0 <= j < i && eligible[j] ==> !LexLess(keys[j], keys[best])
      invariant found ==> forall j :: 0 <= j < best && eligible[j] ==> LexLess(keys[best], keys[j])
    {
      if eligible[i] {
        if !found {
          found, best := true, i;
          forall j | 0 <= j < i ensures !eligible[j] {
            assert eligible[j] == eligible[..i][j];
          }
          LexIrreflexive(keys[i]);
        } else if LexLess(keys[i], keys[best]) {
          forall j | 0 <= j < i && eligible[j] ensures !LexLess(keys[j], keys[i]) && LexLess(keys[i], keys[j]) {
            if LexLess(keys[j], keys[i]) {
              LexTransitive(keys[j], keys[i], keys[best]);
            }
            if j != best {
              LexTotal(keys[j], keys[best]);
              if LexLess(keys[best], keys[j]) {
                LexTransitive(keys[i], keys[best], keys[j]);
              }
            }
          }
          LexIrreflexive(keys[i]);
          best := i;
        }
      }
      assert eligible[..i + 1] == eligible[..i] + [eligible[i]];
      i := i + 1;
    }
    assert eligible[..i] == eligible;
  }

  /** Which entries are candidates for each stream. */
  function VideoEligible(formats: seq<Format>): (e: seq<bool>)
    ensures |e| == |formats| && forall i :: 0 <= i < |formats| ==> e[i] == IsVideoOnly(formats[i])
  {
    seq(|formats|, i requires 0 <= i < |formats| => IsVideoOnly(formats[i]))
  }

  function AudioEligible(formats: seq<Format>, chosen: Option<string>): (e: seq<bool>)
    ensures |e| == |formats|
    ensures forall i :: 0 <= i < |formats| ==> e[i] == (IsAudioOnly(formats[i]) && SpeaksLanguage(formats[i], chosen))
  {
    seq(|formats|, i requires 0 <= i < |formats| => IsAudioOnly(formats[i]) && SpeaksLanguage(formats[i], chosen))
  }

  function VideoKeys(formats: seq<Format>, target: int): (k: seq<seq<real>>)
    ensures |k| == |formats| && SameWidth(k)
    ensures forall i :: 0 <= i < |formats| ==> k[i] == VideoKey(formats[i], target)
  {
    seq(|formats|, i requires 0 <= i < |formats| => VideoKey(formats[i], target))
  }

  function AudioKeys(formats: seq<Format>): (k: seq<seq<real>>)
    ensures |k| == |formats| && SameWidth(k)
    ensures forall i :: 0 <= i < |formats| ==> k[i] == AudioKey(formats[i])
  {
    seq(|formats|, i requires 0 <= i < |formats| => AudioKey(formats[i]))
  }

  /** The audio selector of the generic fallback. */
  function GenericAudio(chosen: Option<string>): (s: string)
    ensures Truthy(chosen) ==> s == "bestaudio[language=" + chosen.value + "]"
    ensures !Truthy(chosen) ==> s == "bestaudio"
  {
    if Truthy(chosen) then "bestaudio[language=" + chosen.value + "]" else "bestaudio"
  }

  /** `_select_formats` (youtube_downloader.py:808-912). When no video-only
      format or no audio-only format in the chosen language exists, the
      generic selectors are returned. Otherwise the ids are those of the
      formats a stable sort by the video and audio keys puts first, so the
      audio speaks the chosen language whenever one is chosen. */
  method SelectFormats(formats: seq<Format>, quality: string, chosen: Option<string>)
    returns (video: string, audio: string)
    ensures video != "" && audio != ""
    ensures !(true in VideoEligible(formats)) || !(true in AudioEligible(formats, chosen)) ==>
      video == "bestvideo" && audio == GenericAudio(chosen)
    ensures true in VideoEligible(formats) && true in AudioEligible(formats, chosen) ==>
      exists v: nat, a: nat ::
        && IsFirstMin(VideoEligible(formats), VideoKeys(formats, TargetHeight(quality)), v)
        && IsFirstMin(AudioEligible(formats, chosen), AudioKeys(formats), a)
        && IsVideoOnly(formats[v]) && video == formats[v].formatId.value
        && IsAudioOnly(formats[a]) && audio == formats[a].formatId.value
        && (Truthy(chosen) ==> LanguageOf(formats[a]) == chosen)
  {
    var target := TargetHeight(quality);
    var hasVideo, v := FirstMin(VideoEligible(formats), VideoKeys(formats, target));
    var hasAudio, a := FirstMin(AudioEligible(formats, chosen), AudioKeys(formats));
    if !hasVideo || !hasAudio {
      return "bestvideo", GenericAudio(chosen);
    }
    video, audio := formats[v].formatId.value, formats[a].formatId.value;
  }

  /** 240p and 144p are not in the table of target heights, so a separate-stream
      download at those tiers aims at 1080. */
  lemma LowTiersAimAt1080()
    ensures TargetHeight("240p") == 1080 && TargetHeight("144p") == 1080
  {
    LowerOfNoUpper("240p");
    LowerOfNoUpper("144p");
  }
}
