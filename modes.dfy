/** The choice between the audio-only, separate-stream ("ultra") and
    standard download paths made by `download`, and the steps of the
    separate-stream path that decide whether it finishes or hands over to
    standard mode. Tool availability, the probe of the video's formats and
    the results of downloading and merging are inputs. */
module Modes {
  import opened Text
  import opened Selection

  /** The path a download takes. */
  datatype Route = AudioOnlyRoute | UltraRoute | StandardRoute

  /** Some format carries a video stream (youtube_downloader.py:487). */
  predicate HasVideoStream(formats: seq<Format>) {
    exists i :: 0 <= i < |formats| && HasCodec(formats[i].vcodec)
  }

  /** The mode after `auto` is resolved: separate streams exactly when FFmpeg
      is found (youtube_downloader.py:473-476). */
  function ResolveMode(mode: string, ffmpeg: bool): (m: string)
    ensures mode != "auto" ==> m == mode
    ensures mode == "auto" ==> (m == "ultra" <==> ffmpeg) && (m == "standard" <==> !ffmpeg)
  {
    if mode == "auto" then (if ffmpeg then "ultra" else "standard") else mode
  }

  /** `download` (youtube_downloader.py:469-497). `moviepy` is the merger's
      availability; `probe` is the video's format list, or None when it could
      not be fetched. Audio-only always wins. The separate-stream path is
      taken only with MoviePy available, in `ultra` mode or in `auto` mode
      with FFmpeg, and only when the probe, if it answered, shows a video
      stream; every other case takes the standard path. */
  function ChooseRoute(audioOnly: bool, mode: string, ffmpeg: bool, moviepy: bool,
                       probe: Option<seq<Format>>): (r: Route)
    ensures audioOnly <==> r == AudioOnlyRoute
    ensures r == UltraRoute <==>
      && !audioOnly && moviepy && ResolveMode(mode, ffmpeg) == "ultra"
      && (probe.None? || HasVideoStream(probe.value))
  {
    if audioOnly then AudioOnlyRoute
    else
      var m := ResolveMode(mode, ffmpeg);
      var m' := if m == "ultra" && moviepy && probe.Some? && !HasVideoStream(probe.value) then "standard" else m;
      if m' == "ultra" && moviepy then UltraRoute else StandardRoute
  }

  /** How the separate-stream path ends: with a result of its own, or by
      handing the download to standard mode. */
  datatype UltraEnd = UltraDone(ok: bool) | FallBack

  /** `_download_ultra_mode` (youtube_downloader.py:505-576). Without FFmpeg
      it hands over at once. Otherwise a cancellation or a missing video
      description ends it with failure, and it succeeds when both streams
      were fetched and merged; any other end hands over to standard mode.
      The selectors from SelectFormats are never empty, so the branch for
      missing selectors is not reachable and has no input here. */
  function UltraMode(ffmpeg: bool, cancelled: bool, infoFound: bool, streamsOk: bool, mergeOk: bool): (e: UltraEnd)
    ensures !ffmpeg ==> e == FallBack
    ensures e == UltraDone(true) <==> ffmpeg && !cancelled && infoFound && streamsOk && mergeOk
    ensures e == UltraDone(false) <==> ffmpeg && (cancelled || !infoFound)
  {
    if !ffmpeg then FallBack
    else if cancelled then UltraDone(false)
    else if !infoFound then UltraDone(false)
    else if streamsOk && mergeOk then UltraDone(true)
    else FallBack
  }

  /** The inputs that decide the separate-stream path. */
  datatype UltraInputs = UltraInputs(cancelled: bool, infoFound: bool, streamsOk: bool, mergeOk: bool)

  /** The result of `download`, given the result each path would have. An
      audio-only download has the audio path's result; one routed to
      standard mode (without MoviePy, when the mode does not resolve to
      `ultra`, or when the probe shows no video stream) the standard path's;
      one on the separate-stream path that path's own result, or standard
      mode's when it hands over; and a success comes from one of the three
      paths. */
  function Download(audioOnly: bool, mode: string, ffmpeg: bool, moviepy: bool, probe: Option<seq<Format>>,
                    ultra: UltraInputs, audioOk: bool, standardOk: bool): (ok: bool)
    ensures audioOnly ==> ok == audioOk
    ensures !audioOnly && !(moviepy && ResolveMode(mode, ffmpeg) == "ultra") ==> ok == standardOk
    ensures ChooseRoute(audioOnly, mode, ffmpeg, moviepy, probe) == StandardRoute ==> ok == standardOk
    ensures ChooseRoute(audioOnly, mode, ffmpeg, moviepy, probe) == UltraRoute ==>
      var e := UltraMode(ffmpeg, ultra.cancelled, ultra.infoFound, ultra.streamsOk, ultra.mergeOk);
      (ok <==> e == UltraDone(true) || (e == FallBack && standardOk))
    ensures ok ==> audioOk || standardOk || (ultra.streamsOk && ultra.mergeOk)
  {
    match ChooseRoute(audioOnly, mode, ffmpeg, moviepy, probe)
    case AudioOnlyRoute => audioOk
    case StandardRoute => standardOk
    case UltraRoute =>
      match UltraMode(ffmpeg, ultra.cancelled, ultra.infoFound, ultra.streamsOk, ultra.mergeOk)
      case UltraDone(ok) => ok
      case FallBack => standardOk
  }

  /** Without FFmpeg every download that is not audio-only has the result of
      standard mode, whatever mode was asked for. */
  lemma WithoutFfmpegOnlyStandard(mode: string, moviepy: bool, probe: Option<seq<Format>>,
                                  ultra: UltraInputs, audioOk: bool, standardOk: bool)
    ensures Download(false, mode, false, moviepy, probe, ultra, audioOk, standardOk) == standardOk
  {
  }

  /** Without MoviePy the separate-stream path is never taken, even with FFmpeg. */
  lemma WithoutMoviePyNoUltra(audioOnly: bool, mode: string, ffmpeg: bool, probe: Option<seq<Format>>)
    ensures ChooseRoute(audioOnly, mode, ffmpeg, false, probe) != UltraRoute
  {
  }

  /** A probe that shows only audio streams sends an `ultra` request to standard mode. */
  lemma AudioOnlyProbeMeansStandard(mode: string, ffmpeg: bool, moviepy: bool, formats: seq<Format>)
    requires forall i :: 0 <= i < |formats| ==> !HasCodec(formats[i].vcodec)
    ensures ChooseRoute(false, mode, ffmpeg, moviepy, Some(formats)) == StandardRoute
  {
  }

  /** A successful download in `auto` mode that is not audio-only either
      came from standard mode or had FFmpeg and MoviePy and merged both
      streams. */
  lemma AutoSuccessSources(ffmpeg: bool, moviepy: bool, probe: Option<seq<Format>>,
                           ultra: UltraInputs, audioOk: bool, standardOk: bool)
    requires Download(false, "auto", ffmpeg, moviepy, probe, ultra, audioOk, standardOk)
    ensures standardOk || (ffmpeg && moviepy && ultra.streamsOk && ultra.mergeOk)
  {
  }
}
