/** The format cascade of standard mode: the fixed per-tier tables of
    `_get_quality_fallbacks` and the audio-language rewrite applied to each
    selector before it is tried. */
module Cascade {
  import opened Text

  /** No candidate asks for a split video+audio download (`a+b`). */
  predicate NoSplitSelector(cascade: seq<string>) {
    forall i :: 0 <= i < |cascade| ==> '+' !in cascade[i]
  }

  /** Height comparison operators used in the single-file selectors. */
  datatype Cmp = Ge | Le | Lt | Gt | Eq

  function CmpText(c: Cmp): (r: string)
    ensures '+' !in r
  {
    match c
    case Ge => ">="
    case Le => "<="
    case Lt => "<"
    case Gt => ">"
    case Eq => "="
  }

  /** A `[height<op><n>]` filter. */
  function Height(c: Cmp, n: string): (r: string)
    requires '+' !in n
    ensures '+' !in r
  {
    "[height" + CmpText(c) + n + "]"
  }

  /** The filter that the FFmpeg-less selectors carry: both a video and an audio codec. */
  const Muxed: string := "[vcodec!*=none][acodec!*=none]"

  lemma PiecesHaveNoPlus()
    ensures '+' !in Muxed && '+' !in "best" && '+' !in "worst" && '+' !in "[ext=mp4]"
  {
  }

  /** What every cascade of the table offers: at least five candidates, a
      plain `best` among them, `best` last with FFmpeg, and without FFmpeg
      no split video+audio candidate and `best` or `worst` last. */
  predicate Wellformed(r: seq<string>, ffmpeg: bool) {
    && |r| >= 5
    && "best" in r
    && (ffmpeg ==> r[|r| - 1] == "best")
    && (!ffmpeg ==> NoSplitSelector(r) && r[|r| - 1] in {"best", "worst"})
  }

  // The selectors are the source's strings, with the repeated height and
  // codec filters written through Height and Muxed.

  /** Tier `best`: its cascade with FFmpeg (youtube_downloader.py:1043-1051);
      the table without FFmpeg has no such tier. */
  function TierBest(ffmpeg: bool): (r: Option<seq<string>>)
    ensures r.Some? <==> ffmpeg
    ensures r.Some? ==> Wellformed(r.value, ffmpeg)
  {
    if ffmpeg then Some([
        "bestvideo" + Height(Ge, "1080") + "+bestaudio/best" + Height(Ge, "1080"),
        "bestvideo" + Height(Ge, "720") + "+bestaudio/best" + Height(Ge, "720"),
        "bestvideo+bestaudio/best" + Height(Ge, "480"),
        "best" + Height(Ge, "1080"),
        "best" + Height(Ge, "720"),
        "best" + Height(Ge, "480"),
        "best" + Height(Le, "2160"),
        "best" + Height(Le, "1080"),
        "best" + Height(Le, "720"),
        "bestvideo[ext=mp4]+bestaudio[ext=m4a]/best[ext=mp4]",
        "bestvideo+bestaudio/best",
        "best"
    ]) else None
  }

  /** Tier `4k`: its cascade with FFmpeg and without it (youtube_downloader.py:1052-1060 and 1128-1135). */
  function TierK4(ffmpeg: bool): (r: Option<seq<string>>)
    ensures r.Some? && Wellformed(r.value, ffmpeg)
    ensures r.value[|r.value| - 1] == "best"
  {
    PiecesHaveNoPlus();
    if ffmpeg then Some([
        "bestvideo" + Height(Ge, "2160") + "+bestaudio/best" + Height(Ge, "2160"),
        "bestvideo" + Height(Ge, "1440") + "+bestaudio/best" + Height(Ge, "1440"),
        "bestvideo" + Height(Ge, "1080") + "+bestaudio/best" + Height(Ge, "1080"),
        "best" + Height(Ge, "2160"),
        "best" + Height(Ge, "1440"),
        "best" + Height(Ge, "1080"),
        "best" + Height(Le, "2160"),
        "best" + Height(Le, "1440"),
        "best" + Height(Le, "1080"),
        "bestvideo" + Height(Ge, "2160") + "+bestaudio/best" + Height(Le, "2160"),
        "bestvideo+bestaudio/best",
        "best"
    ]) else Some([
        "best" + Height(Ge, "2160") + Muxed,
        "best" + Height(Ge, "1440") + Muxed,
        "best" + Height(Ge, "1080") + Muxed,
        "best" + Height(Ge, "720") + Muxed,
        "best" + Muxed,
        "best[ext=mp4]",
        "best"
    ])
  }

  /** Tier `1440p`: its cascade with FFmpeg and without it (youtube_downloader.py:1061-1069 and 1136-1143). */
  function TierP1440(ffmpeg: bool): (r: Option<seq<string>>)
    ensures r.Some? && Wellformed(r.value, ffmpeg)
    ensures r.value[|r.value| - 1] == "best"
  {
    PiecesHaveNoPlus();
    if ffmpeg then Some([
        "bestvideo" + Height(Ge, "1440") + "+bestaudio/best" + Height(Ge, "1440"),
        "bestvideo" + Height(Ge, "1080") + "+bestaudio/best" + Height(Ge, "1080"),
        "bestvideo" + Height(Ge, "720") + "+bestaudio/best" + Height(Ge, "720"),
        "best" + Height(Ge, "1440"),
        "best" + Height(Ge, "1080"),
        "best" + Height(Ge, "720"),
        "best" + Height(Le, "1440"),
        "best" + Height(Le, "1080"),
        "bestvideo" + Height(Ge, "1440") + "+bestaudio/best" + Height(Le, "1440"),
        "bestvideo+bestaudio/best",
        "best"
    ]) else Some([
        "best" + Height(Ge, "1440") + Muxed,
        "best" + Height(Ge, "1080") + Muxed,
        "best" + Height(Ge, "720") + Muxed,
        "best" + Height(Ge, "480") + Muxed,
        "best" + Muxed,
        "best[ext=mp4]",
        "best"
    ])
  }

  /** Tier `1080p`: its cascade with FFmpeg and without it (youtube_downloader.py:1070-1078 and 1144-1151). */
  function TierP1080(ffmpeg: bool): (r: Option<seq<string>>)
    ensures r.Some? && Wellformed(r.value, ffmpeg)
    ensures r.value[|r.value| - 1] == "best"
  {
    PiecesHaveNoPlus();
    if ffmpeg then Some([
        "bestvideo" + Height(Ge, "1080") + "+bestaudio/best" + Height(Ge, "1080"),
        "bestvideo" + Height(Ge, "720") + "+bestaudio/best" + Height(Ge, "720"),
        "bestvideo" + Height(Ge, "480") + "+bestaudio/best" + Height(Ge, "480"),
        "best" + Height(Ge, "1080"),
        "best" + Height(Ge, "720"),
        "best" + Height(Ge, "480"),
        "best" + Height(Le, "1080"),
        "best" + Height(Le, "720"),
        "bestvideo" + Height(Ge, "1080") + "+bestaudio/best" + Height(Le, "1080"),
        "bestvideo+bestaudio/best",
        "best"
    ]) else Some([
        "best" + Height(Ge, "1080") + Muxed,
        "best" + Height(Ge, "720") + Muxed,
        "best" + Height(Ge, "480") + Muxed,
        "best" + Height(Ge, "360") + Muxed,
        "best" + Muxed,
        "best[ext=mp4]",
        "best"
    ])
  }

  /** Tier `720p`: its cascade with FFmpeg and without it (youtube_downloader.py:1079-1087 and 1152-1159). */
  function TierP720(ffmpeg: bool): (r: Option<seq<string>>)
    ensures r.Some? && Wellformed(r.value, ffmpeg)
    ensures r.value[|r.value| - 1] == "best"
  {
    PiecesHaveNoPlus();
    if ffmpeg then Some([
        "bestvideo" + Height(Ge, "720") + "+bestaudio/best" + Height(Ge, "720"),
        "bestvideo" + Height(Ge, "480") + "+bestaudio/best" + Height(Ge, "480"),
        "bestvideo" + Height(Ge, "360") + "+bestaudio/best" + Height(Ge, "360"),
        "best" + Height(Ge, "720"),
        "best" + Height(Ge, "480"),
        "best" + Height(Ge, "360"),
        "best" + Height(Le, "720"),
        "best" + Height(Le, "480"),
        "bestvideo" + Height(Ge, "720") + "+bestaudio/best" + Height(Le, "720"),
        "bestvideo+bestaudio/best",
        "best"
    ]) else Some([
        "best" + Height(Ge, "720") + Muxed,
        "best" + Height(Ge, "480") + Muxed,
        "best" + Height(Ge, "360") + Muxed,
        "best" + Height(Ge, "240") + Muxed,
        "best" + Muxed,
        "best[ext=mp4]",
        "best"
    ])
  }

  /** Tier `480p`: its cascade with FFmpeg and without it (youtube_downloader.py:1088-1095 and 1160-1166). */
  function TierP480(ffmpeg: bool): (r: Option<seq<string>>)
    ensures r.Some? && Wellformed(r.value, ffmpeg)
    ensures r.value[|r.value| - 1] == "best"
  {
    PiecesHaveNoPlus();
    if ffmpeg then Some([
        "bestvideo" + Height(Ge, "480") + Height(Lt, "720") + "+bestaudio/best" + Height(Ge, "480") + Height(Lt, "720"),
        "bestvideo" + Height(Ge, "480") + "+bestaudio/best" + Height(Ge, "480"),
        "best" + Height(Ge, "480") + Height(Lt, "720"),
        "best" + Height(Ge, "480"),
        "best" + Height(Le, "480") + Height(Gt, "360"),
        "best" + Height(Le, "480"),
        "bestvideo" + Height(Ge, "480") + "+bestaudio/best" + Height(Le, "480"),
        "bestvideo+bestaudio/best",
        "best"
    ]) else Some([
        "best" + Height(Eq, "480") + Muxed,
        "best" + Height(Ge, "480") + Height(Lt, "720") + Muxed,
        "best" + Height(Le, "480") + Height(Ge, "360") + Muxed,
        "best" + Height(Le, "480") + Muxed,
        "best[ext=mp4]",
        "best"
    ])
  }

  /** Tier `360p`: its cascade with FFmpeg and without it (youtube_downloader.py:1096-1103 and 1167-1173). */
  function TierP360(ffmpeg: bool): (r: Option<seq<string>>)
    ensures r.Some? && Wellformed(r.value, ffmpeg)
    ensures r.value[|r.value| - 1] == "best"
  {
    PiecesHaveNoPlus();
    if ffmpeg then Some([
        "bestvideo" + Height(Ge, "360") + Height(Lt, "480") + "+bestaudio/best" + Height(Ge, "360") + Height(Lt, "480"),
        "bestvideo" + Height(Ge, "360") + "+bestaudio/best" + Height(Ge, "360"),
        "best" + Height(Ge, "360") + Height(Lt, "480"),
        "best" + Height(Ge, "360"),
        "best" + Height(Le, "360"),
        "bestvideo" + Height(Ge, "360") + "+bestaudio/best" + Height(Le, "360"),
        "bestvideo+bestaudio/best",
        "best"
    ]) else Some([
        "best" + Height(Eq, "360") + Muxed,
        "best" + Height(Ge, "360") + Height(Lt, "480") + Muxed,
        "best" + Height(Le, "360") + Height(Ge, "240") + Muxed,
        "best" + Height(Le, "360") + Muxed,
        "best[ext=mp4]",
        "best"
    ])
  }

  /** Tier `240p`: its cascade with FFmpeg and without it (youtube_downloader.py:1104-1111 and 1174-1180). */
  function TierP240(ffmpeg: bool): (r: Option<seq<string>>)
    ensures r.Some? && Wellformed(r.value, ffmpeg)
    ensures r.value[|r.value| - 1] == (if ffmpeg then "best" else "worst")
  {
    PiecesHaveNoPlus();
    if ffmpeg then Some([
        "bestvideo" + Height(Ge, "240") + Height(Lt, "360") + "+bestaudio/best" + Height(Ge, "240") + Height(Lt, "360"),
        "bestvideo" + Height(Ge, "240") + "+bestaudio/best" + Height(Ge, "240"),
        "best" + Height(Ge, "240") + Height(Lt, "360"),
        "best" + Height(Ge, "240"),
        "best" + Height(Le, "240"),
        "bestvideo" + Height(Ge, "240") + "+bestaudio/best" + Height(Le, "240"),
        "bestvideo+bestaudio/best",
        "best"
    ]) else Some([
        "best" + Height(Eq, "240") + Muxed,
        "best" + Height(Ge, "240") + Height(Lt, "360") + Muxed,
        "best" + Height(Le, "240") + Height(Ge, "144") + Muxed,
        "best" + Height(Le, "240") + Muxed,
        "best[ext=mp4]",
        "best",
        "worst" + Height(Eq, "240") + Muxed,
        "worst[ext=mp4]",
        "worst"
    ])
  }

  /** Tier `144p`: its cascade with FFmpeg and without it (youtube_downloader.py:1112-1119 and 1181-1186). */
  function TierP144(ffmpeg: bool): (r: Option<seq<string>>)
    ensures r.Some? && Wellformed(r.value, ffmpeg)
    ensures r.value[|r.value| - 1] == (if ffmpeg then "best" else "worst")
  {
    PiecesHaveNoPlus();
    if ffmpeg then Some([
        "bestvideo" + Height(Ge, "144") + Height(Lt, "240") + "+bestaudio/best" + Height(Ge, "144") + Height(Lt, "240"),
        "bestvideo" + Height(Ge, "144") + "+bestaudio/best" + Height(Ge, "144"),
        "best" + Height(Ge, "144") + Height(Lt, "240"),
        "best" + Height(Ge, "144"),
        "best" + Height(Le, "144"),
        "bestvideo" + Height(Ge, "144") + "+bestaudio/best" + Height(Le, "144"),
        "bestvideo+bestaudio/best",
        "best"
    ]) else Some([
        "best" + Height(Eq, "144") + Muxed,
        "best" + Height(Ge, "144") + Height(Lt, "240") + Muxed,
        "best" + Height(Le, "144") + Muxed,
        "best[ext=mp4]",
        "best",
        "worst" + Height(Eq, "144") + Muxed,
        "worst[ext=mp4]",
        "worst"
    ])
  }

  /** The per-tier table, keyed by the lower-cased tier. */
  function Table(key: string, ffmpeg: bool): (r: Option<seq<string>>)
    ensures r.Some? ==> Wellformed(r.value, ffmpeg)
  {
    if key == "best" then TierBest(ffmpeg)
    else if key == "4k" then TierK4(ffmpeg)
    else if key == "1440p" then TierP1440(ffmpeg)
    else if key == "1080p" then TierP1080(ffmpeg)
    else if key == "720p" then TierP720(ffmpeg)
    else if key == "480p" then TierP480(ffmpeg)
    else if key == "360p" then TierP360(ffmpeg)
    else if key == "240p" then TierP240(ffmpeg)
    else if key == "144p" then TierP144(ffmpeg)
    else None
  }

  /** The five-step cascade for a tier missing from the table (youtube_downloader.py:1189-1195). */
  function DefaultCascade(ffmpeg: bool): (r: seq<string>)
    ensures |r| == 5 && r[4] == "best"
    ensures Wellformed(r, ffmpeg)
  {
    PiecesHaveNoPlus();
    if ffmpeg then [
      "bestvideo" + Height(Ge, "720") + "+bestaudio/best" + Height(Ge, "720"),
      "bestvideo" + Height(Ge, "480") + "+bestaudio/best" + Height(Ge, "480"),
      "bestvideo" + Height(Ge, "360") + "+bestaudio/best" + Height(Ge, "360"),
      "bestvideo+bestaudio/best",
      "best"
    ] else [
      "best" + Height(Ge, "720") + Muxed,
      "best" + Height(Ge, "480") + Muxed,
      "best" + Height(Ge, "360") + Muxed,
      "best" + Muxed,
      "best"
    ]
  }

  /** `_get_quality_fallbacks`: the table for FFmpeg availability, looked up by
      the lower-cased tier, with the default cascade for an unknown tier. */
  function QualityFallbacks(quality: string, ffmpeg: bool): (r: seq<string>)
    ensures Wellformed(r, ffmpeg)
  {
    Table(Lower(quality), ffmpeg).GetOr(DefaultCascade(ffmpeg))
  }

  /** Looking a tier up ignores the case of its name. */
  lemma LookupIgnoresCase(quality: string, ffmpeg: bool)
    ensures QualityFallbacks(quality, ffmpeg) == QualityFallbacks(Lower(quality), ffmpeg)
  {
    LowerIdempotent(quality);
  }

  /** Without FFmpeg the table has no `best` tier, so `best` gets the default cascade. */
  lemma BestWithoutFfmpegIsDefault(quality: string)
    requires Lower(quality) == "best"
    ensures QualityFallbacks(quality, false) == DefaultCascade(false)
  {
  }

  /** Without FFmpeg the two lowest tiers end with `worst`. */
  lemma LowestTiersEndWithWorst()
    ensures var r := QualityFallbacks("240p", false); r[|r| - 1] == "worst"
    ensures var r := QualityFallbacks("144p", false); r[|r| - 1] == "worst"
  {
    LowerOfNoUpper("240p");
    LowerOfNoUpper("144p");
  }

  /** The character of a height filter that holds the first digit of its bound. */
  lemma HeightDigit(c: Cmp, n: string)
    requires '+' !in n && |n| > 0
    ensures |Height(c, n)| == 8 + |CmpText(c)| + |n|
    ensures Height(c, n)[7 + |CmpText(c)|] == n[0]
  {
  }

  /** Where the first candidate of a low tier names the height it asks
      for first: right after `bestvideo[height>=` with FFmpeg and after
      `best[height=` without it. */
  function DigitIndex(ffmpeg: bool): nat {
    if ffmpeg then 18 else 12
  }

  /** A lower-case tier name in the table is looked up as it is. */
  lemma LowerCaseLookup(quality: string, ffmpeg: bool)
    requires NoUpper(quality) && Table(quality, ffmpeg).Some?
    ensures QualityFallbacks(quality, ffmpeg) == Table(quality, ffmpeg).value
  {
    LowerOfNoUpper(quality);
  }

  lemma FirstSelectorDigit480(ffmpeg: bool)
    ensures var r := QualityFallbacks("480p", ffmpeg)[0];
      |r| > DigitIndex(ffmpeg) && r[DigitIndex(ffmpeg)] == '4'
  {
    LowerCaseLookup("480p", ffmpeg);
    HeightDigit(if ffmpeg then Ge else Eq, "480");
  }

  lemma FirstSelectorDigit360(ffmpeg: bool)
    ensures var r := QualityFallbacks("360p", ffmpeg)[0];
      |r| > DigitIndex(ffmpeg) && r[DigitIndex(ffmpeg)] == '3'
  {
    LowerCaseLookup("360p", ffmpeg);
    HeightDigit(if ffmpeg then Ge else Eq, "360");
  }

  lemma FirstSelectorDigit240(ffmpeg: bool)
    ensures var r := QualityFallbacks("240p", ffmpeg)[0];
      |r| > DigitIndex(ffmpeg) && r[DigitIndex(ffmpeg)] == '2'
  {
    LowerCaseLookup("240p", ffmpeg);
    HeightDigit(if ffmpeg then Ge else Eq, "240");
  }

  lemma FirstSelectorDigit144(ffmpeg: bool)
    ensures var r := QualityFallbacks("144p", ffmpeg)[0];
      |r| > DigitIndex(ffmpeg) && r[DigitIndex(ffmpeg)] == '1'
  {
    LowerCaseLookup("144p", ffmpeg);
    HeightDigit(if ffmpeg then Ge else Eq, "144");
  }

  // The first candidates of adjacent low tiers differ: these are the
  // primary selectors that test_quality_fix.py:93-95 compares.

  lemma FirstSelectors480And360Differ(ffmpeg: bool)
    ensures QualityFallbacks("480p", ffmpeg)[0] != QualityFallbacks("360p", ffmpeg)[0]
  {
    FirstSelectorDigit480(ffmpeg);
    FirstSelectorDigit360(ffmpeg);
  }

  lemma FirstSelectors360And240Differ(ffmpeg: bool)
    ensures QualityFallbacks("360p", ffmpeg)[0] != QualityFallbacks("240p", ffmpeg)[0]
  {
    FirstSelectorDigit360(ffmpeg);
    FirstSelectorDigit240(ffmpeg);
  }

  lemma FirstSelectors240And144Differ(ffmpeg: bool)
    ensures QualityFallbacks("240p", ffmpeg)[0] != QualityFallbacks("144p", ffmpeg)[0]
  {
    FirstSelectorDigit240(ffmpeg);
    FirstSelectorDigit144(ffmpeg);
  }

  /** The language filter put on the audio part of a selector. */
  function LanguageFilter(lang: string): (r: string)
    ensures IsPrefix("[language=", r) && r[|r| - 1] == ']'
  {
    "[language=" + lang + "]"
  }

  /** The audio-language rewrite applied to each candidate before it is
      tried (youtube_downloader.py:604-617). A selector that is changed
      keeps the original as its last alternative, and it is changed exactly
      when a language is chosen and the selector has at most one `+`. */
  function WithLanguage(fmt: string, lang: Option<string>): (r: string)
    ensures r == fmt || IsSuffix("/" + fmt, r)
    ensures r != fmt <==> Truthy(lang) && Count(fmt, '+') <= 1
  {
    SplitLength(fmt, '+');
    if !Truthy(lang) then fmt
    else if '+' in fmt then
      var parts := Split(fmt, '+');
      if |parts| == 2 then parts[0] + "+bestaudio" + LanguageFilter(lang.value) + "/" + fmt else fmt
    else fmt + LanguageFilter(lang.value) + "/" + fmt
  }

  /** The three rewrites spelled out: a single-file selector gets the filter
      itself, a two-part selector gets it on a `bestaudio` after its video
      part (the text before the `+`), anything else is left alone. */
  lemma WithLanguageCases(fmt: string, lang: string)
    requires lang != ""
    ensures '+' !in fmt ==> WithLanguage(fmt, Some(lang)) == fmt + LanguageFilter(lang) + "/" + fmt
    ensures Count(fmt, '+') == 1 ==>
      var i := IndexOf(fmt, '+');
      WithLanguage(fmt, Some(lang)) == fmt[..i] + "+bestaudio" + LanguageFilter(lang) + "/" + fmt
    ensures Count(fmt, '+') >= 2 ==> WithLanguage(fmt, Some(lang)) == fmt
  {
    SplitLength(fmt, '+');
  }

  /** Without FFmpeg every candidate of a cascade gets its own language-filtered
      alternative in front of it. */
  lemma CombinedCascadeRewrite(quality: string, lang: string, k: nat)
    requires lang != ""
    requires k < |QualityFallbacks(quality, false)|
    ensures var fmt := QualityFallbacks(quality, false)[k];
      WithLanguage(fmt, Some(lang)) == fmt + LanguageFilter(lang) + "/" + fmt
  {
    WithLanguageCases(QualityFallbacks(quality, false)[k], lang);
  }
}
