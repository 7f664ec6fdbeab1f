/** Output file names: the yt-dlp output template (`_get_output_template`)
    and the final MP4 path (`_get_output_path`). A user-chosen name or a
    title has each character that file systems reject replaced by `_`. The
    download directory is a path without a trailing separator. */
module Naming {
  import opened Text

  /** The characters replaced in a file name (youtube_downloader.py:1201). */
  predicate Unsafe(c: char) {
    c in {'<', '>', ':', '"', '/', '\\', '|', '?', '*'}
  }

  /** `re.sub(r'[<>:"/\\|?*]', '_', name)`: every unsafe character becomes
      `_`, every other character is kept, and the length does not change. */
  function Sanitize(name: string): (r: string)
    ensures |r| == |name|
    ensures forall i :: 0 <= i < |name| ==> r[i] == (if Unsafe(name[i]) then '_' else name[i])
    ensures forall i :: 0 <= i < |r| ==> !Unsafe(r[i])
  {
    seq(|name|, i requires 0 <= i < |name| => if Unsafe(name[i]) then '_' else name[i])
  }

  /** A name without unsafe characters is left as it is. */
  lemma SanitizeKeepsSafeNames(name: string)
    requires forall i :: 0 <= i < |name| ==> !Unsafe(name[i])
    ensures Sanitize(name) == name
  {
    assert forall i :: 0 <= i < |name| ==> Sanitize(name)[i] == name[i];
  }

  /** Sanitizing twice is sanitizing once. */
  lemma SanitizeIdempotent(name: string)
    ensures Sanitize(Sanitize(name)) == Sanitize(name)
  {
    SanitizeKeepsSafeNames(Sanitize(name));
  }

  /** `directory / name` for a name without a separator. */
  function InDir(dir: string, name: string): string {
    dir + "/" + name
  }

  /** The extension a template ends with. */
  function TemplateExt(audioOnly: bool): string {
    if audioOnly then "mp3" else "%(ext)s"
  }

  /** The file part of `r`, a path in `dir` that ends with `.` and `ext`. */
  function FilePart(dir: string, r: string, ext: string): string
    requires |dir| + 1 + |ext| + 1 <= |r|
  {
    r[|dir| + 1..|r| - |ext| - 1]
  }

  /** `_get_output_template` (youtube_downloader.py:1197-1205): a path in
      the download directory ending with `.mp3` for audio-only downloads and
      with yt-dlp's `.%(ext)s` otherwise, whose name is the sanitized output
      name when one is given (non-empty), else yt-dlp's `%(title)s`. */
  function OutputTemplate(dir: string, outputName: Option<string>, audioOnly: bool): (r: string)
    ensures var ext := TemplateExt(audioOnly);
      && IsPrefix(dir + "/", r)
      && IsSuffix("." + ext, r)
      && |dir| + 1 + |ext| + 1 <= |r|
      && FilePart(dir, r, ext) == (if Truthy(outputName) then Sanitize(outputName.value) else "%(title)s")
  {
    var ext := TemplateExt(audioOnly);
    var name := if Truthy(outputName) then Sanitize(outputName.value) else "%(title)s";
    var r := InDir(dir, name + "." + ext);
    assert r == (dir + "/") + name + ("." + ext);
    r
  }

  /** `_get_output_path` (youtube_downloader.py:1207-1213): a path in the
      download directory ending with `.mp4`, whose name is the sanitized
      output name when one is given, else the sanitized title. */
  function OutputPath(dir: string, title: string, outputName: Option<string>): (r: string)
    ensures IsPrefix(dir + "/", r)
    ensures IsSuffix(".mp4", r)
    ensures |dir| + 5 <= |r|
    ensures FilePart(dir, r, "mp4") == Sanitize(if Truthy(outputName) then outputName.value else title)
  {
    var safeName := if Truthy(outputName) then Sanitize(outputName.value) else Sanitize(title);
    var r := InDir(dir, safeName + ".mp4");
    assert r == (dir + "/") + safeName + ".mp4";
    r
  }

  /** The final path never leaves the download directory: its file part
      holds no separator, whatever the title or the output name contain. */
  lemma OutputPathStaysInDir(dir: string, title: string, outputName: Option<string>)
    ensures var r := OutputPath(dir, title, outputName);
      '/' !in r[|dir| + 1..]
  {
    var r := OutputPath(dir, title, outputName);
    var name := FilePart(dir, r, "mp4");
    assert r[|dir| + 1..] == name + ".mp4";
    forall i | 0 <= i < |name| ensures name[i] != '/' {
      assert !Unsafe(name[i]);
    }
  }

  /** With an output name, the video template and the final path name the
      same file in the same directory, up to the extension. */
  lemma TemplateAndPathShareName(dir: string, title: string, name: string)
    requires name != ""
    ensures FilePart(dir, OutputTemplate(dir, Some(name), false), "%(ext)s")
         == FilePart(dir, OutputPath(dir, title, Some(name)), "mp4")
  {
  }
}
