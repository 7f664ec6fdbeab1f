/** The repair step run when a download finishes (`_validate_and_fix_file`):
    a file whose probed duration or width is missing or not positive is
    remuxed to MP4, and the result takes the original's place while the
    original is kept as a `.orig` backup. The file system is a map from
    path to content; probing and remuxing are inputs. */
module Validation {
  import opened Text

  /** A path as its directory part (with its trailing `/`, or "" for a bare
      name) and its name, the part after the last `/`. */
  datatype Path = Path(dir: string, name: string)

  /** `PurePath.suffix`: from the last `.` of the name, unless that dot is
      the first or the last character of the name. */
  function Suffix(name: string): (s: string)
    ensures s == "" || (s[0] == '.' && |s| >= 2 && IsSuffix(s, name))
  {
    match LastIndexOf(name, '.')
    case Some(i) => if 0 < i < |name| - 1 then name[i..] else ""
    case None => ""
  }

  /** `PurePath.stem`: the name without its suffix. */
  function Stem(name: string): (s: string)
    ensures s + Suffix(name) == name
  {
    name[..|name| - |Suffix(name)|]
  }

  /** `PurePath.with_suffix(suffix)` for a path with a non-empty name. */
  function WithSuffix(p: Path, suffix: string): Path {
    Path(p.dir, Stem(p.name) + suffix)
  }

  /** A probe value; a missing one counts as 0. */
  function OrZero(x: Option<real>): real {
    x.GetOr(0.0)
  }

  /** Remuxing is attempted when the duration or the width is missing, zero
      or negative (youtube_downloader.py:310-312): a file is left as it is
      exactly when both probe values are present and positive. */
  predicate NeedsRemux(duration: Option<real>, width: Option<real>): (b: bool)
    ensures !b <==> duration.Some? && duration.value > 0.0 && width.Some? && width.value > 0.0
  {
    OrZero(duration) <= 0.0 || OrZero(width) <= 0.0
  }

  /** The remux target: the same name with suffix `.mp4`, or the stem with
      `_fixed.mp4` when that file exists (youtube_downloader.py:314-317). It
      stays in the same directory, ends with `.mp4` and is never the file
      itself. */
  function RemuxTarget(existing: set<Path>, p: Path): (t: Path)
    requires p in existing
    ensures t.dir == p.dir
    ensures IsSuffix(".mp4", t.name)
    ensures t != p
  {
    var stem := Stem(p.name);
    var first := Path(p.dir, stem + ".mp4");
    if first !in existing then
      SuffixKept(stem, ".mp4");
      first
    else
      SuffixDiffersFromFixed(p.name);
      SuffixKept(stem + "_fixed", ".mp4");
      assert stem + "_fixed" + ".mp4" == stem + "_fixed.mp4";
      Path(p.dir, stem + "_fixed.mp4")
  }

  /** A text put after a prefix is a suffix of the result. */
  lemma SuffixKept(a: string, b: string)
    ensures IsSuffix(b, a + b)
  {
    assert (a + b)[|a|..] == b;
  }

  /** `stem + "_fixed.mp4"` never equals the name itself, since a suffix is
      empty or starts with a dot. */
  lemma SuffixDiffersFromFixed(name: string)
    ensures Stem(name) + "_fixed.mp4" != name
  {
    var stem, suffix := Stem(name), Suffix(name);
    if suffix != "" {
      assert (stem + "_fixed.mp4")[|stem|] == '_';
      assert name[|stem|] == '.';
    }
  }

  /** A file that already has the `.mp4` suffix is its own first choice of
      target, which exists, so it is remuxed into `<stem>_fixed.mp4`. */
  lemma Mp4RemuxesToFixed(existing: set<Path>, p: Path)
    requires p in existing && Suffix(p.name) == ".mp4"
    ensures RemuxTarget(existing, p) == Path(p.dir, Stem(p.name) + "_fixed.mp4")
  {
    assert WithSuffix(p, ".mp4") == p;
  }

  /** The backup name `path.with_suffix(path.suffix + '.orig')` is the name
      with `.orig` appended. */
  function Backup(p: Path): (b: Path)
    ensures b == Path(p.dir, p.name + ".orig")
  {
    var stem, suffix := Stem(p.name), Suffix(p.name);
    assert stem + (suffix + ".orig") == stem + suffix + ".orig";
    WithSuffix(p, suffix + ".orig")
  }

  /** The file system after a successful remux into `target` with content
      `fixed`: the remuxed file is written, the original moves to the backup
      name unless a backup already exists, and the remuxed file takes the
      original's name. The file then holds the remuxed content and the
      target name is gone; BackupPreserved and RemuxFrame give the rest. */
  function AfterRemux(files: map<Path, nat>, p: Path, target: Path, fixed: nat): (r: map<Path, nat>)
    requires p in files
    ensures p in r && r[p] == fixed
    ensures target != p ==> target !in r
  {
    var written := files[target := fixed];
    var backup := Backup(p);
    var moved := if backup in written then written else written - {p} + map[backup := written[p]];
    (moved - {target})[p := fixed]
  }

  /** The target is neither the file nor its backup. */
  lemma TargetDistinct(files: map<Path, nat>, p: Path)
    requires p in files
    ensures RemuxTarget(files.Keys, p) != p
    ensures RemuxTarget(files.Keys, p) != Backup(p)
  {
    var t := RemuxTarget(files.Keys, p);
    assert t.name[|t.name| - 1] == '4';
    assert Backup(p).name[|Backup(p).name| - 1] == 'g';
  }

  class Disk {
    /** The files that exist, with a token for their content. */
    var files: map<Path, nat>

    constructor(files: map<Path, nat>)
      ensures this.files == files
    {
      this.files := files;
    }

    /** `_validate_and_fix_file` (youtube_downloader.py:296-333). `remux` is
        the content ffmpeg wrote to the target, or None when remuxing
        failed. A missing file gives None; a file that needs no remux, or
        whose remux failed, is returned as it is; a file with an empty name
        cannot take a suffix, which the source reports as None. */
    method ValidateAndFix(p: Path, duration: Option<real>, width: Option<real>, remux: Option<nat>)
      returns (r: Option<Path>)
      modifies this
      ensures p !in old(files) ==> r == None && files == old(files)
      ensures p in old(files) && !NeedsRemux(duration, width) ==> r == Some(p) && files == old(files)
      ensures p in old(files) && NeedsRemux(duration, width) && p.name == "" ==> r == None && files == old(files)
      ensures p in old(files) && NeedsRemux(duration, width) && p.name != "" && remux.None? ==>
        r == Some(p) && files == old(files)
      ensures p in old(files) && NeedsRemux(duration, width) && p.name != "" && remux.Some? ==>
        && r == Some(p)
        && files == AfterRemux(old(files), p, RemuxTarget(old(files).Keys, p), remux.value)
    {
      if p !in files {
        return None;
      }
      if !NeedsRemux(duration, width) {
        return Some(p);
      }
      if p.name == "" {
        // with_suffix raises on an empty name; the handler returns None
        return None;
      }
      var target := RemuxTarget(files.Keys, p);
      if remux.None? {
        return Some(p);
      }
      files := files[target := remux.value];
      var backup := Backup(p);
      if backup !in files {
        files := files - {p} + map[backup := files[p]];
      }
      files := (files - {target})[p := remux.value];
      return Some(p);
    }
  }

  /** A backup that already exists is never overwritten, and when there was
      none the original content is kept under the backup name. */
  lemma BackupPreserved(files: map<Path, nat>, p: Path, fixed: nat)
    requires p in files
    ensures var after := AfterRemux(files, p, RemuxTarget(files.Keys, p), fixed);
      && Backup(p) in after
      && after[Backup(p)] == (if Backup(p) in files then files[Backup(p)] else files[p])
  {
    TargetDistinct(files, p);
  }

  /** After the repair the file holds the remuxed content, the target name is
      gone, and every file other than the file, its backup and the target is
      untouched. */
  lemma RemuxFrame(files: map<Path, nat>, p: Path, fixed: nat, q: Path)
    requires p in files
    ensures var t := RemuxTarget(files.Keys, p);
      var after := AfterRemux(files, p, t, fixed);
      && after[p] == fixed && t !in after
      && (q != p && q != t && q != Backup(p) ==> (q in after <==> q in files) && (q in files ==> after[q] == files[q]))
  {
    TargetDistinct(files, p);
  }
}
