/** What the web front end derives from a video's format list
    (`get_video_info`): the quality labels on offer, tallest first, and the
    audio languages, sorted by code. Also the name check and the fallback
    name match of `download_by_filename`. */
module WebInfo {
  import opened Text
  import opened Selection

  /** The quality labels, tallest first, with their nominal heights and the
      least height each covers (web_app.py:297-321, 333). */
  const Labels: seq<string> := ["4K", "1440p", "1080p", "720p", "480p", "360p", "240p", "144p"]
  const Nominal: seq<int> := [2160, 1440, 1080, 720, 480, 360, 240, 144]
  const Floors: seq<int> := [2000, 1350, 1000, 650, 420, 300, 200, 100]

  /** The bucket of a height: the first label whose floor the height reaches,
      None below 100. The buckets are the ranges between consecutive floors. */
  function Bucket(height: int): (k: Option<nat>)
    ensures k.None? <==> height < 100
    ensures k.Some? ==> k.value < 8 && Floors[k.value] <= height
    ensures k.Some? && k.value > 0 ==> height < Floors[k.value - 1]
  {
    if height >= 2000 then Some(0)
    else if height >= 1350 then Some(1)
    else if height >= 1000 then Some(2)
    else if height >= 650 then Some(3)
    else if height >= 420 then Some(4)
    else if height >= 300 then Some(5)
    else if height >= 200 then Some(6)
    else if height >= 100 then Some(7)
    else None
  }

  /** A taller format never gets a label of lower nominal height. */
  lemma BucketMonotone(h1: int, h2: int)
    requires 100 <= h1 <= h2
    ensures Bucket(h2).value <= Bucket(h1).value
  {
  }

  /** Every nominal height falls in its own bucket. */
  lemma NominalInOwnBucket(k: nat)
    requires k < 8
    ensures Bucket(Nominal[k]) == Some(k)
  {
  }

  /** The label a format contributes: one for a non-zero integer height of
      at least 100. */
  function LabelOf(f: Format): (l: Option<nat>)
    ensures l.Some? <==> TruthyInt(f.height) && f.height.value >= 100
  {
    if TruthyInt(f.height) then Bucket(f.height.value) else None
  }

  /** The labels (as indices into Labels) found among the formats. */
  function QualitySet(formats: seq<Format>): (s: set<nat>)
    ensures forall k :: k in s ==> k < 8
  {
    if formats == [] then {}
    else
      var rest := QualitySet(formats[..|formats| - 1]);
      match LabelOf(formats[|formats| - 1])
      case Some(k) => rest + {k}
      case None => rest
  }

  /** A label is found exactly when some format has it. */
  lemma {:induction false} QualitySetMembers(formats: seq<Format>, k: nat)
    ensures k in QualitySet(formats) <==> exists i :: 0 <= i < |formats| && LabelOf(formats[i]) == Some(k)
    decreases |formats|
  {
    if formats != [] {
      var init := formats[..|formats| - 1];
      QualitySetMembers(init, k);
      if k in QualitySet(init) {
        var i :| 0 <= i < |init| && LabelOf(init[i]) == Some(k);
        assert formats[i] == init[i];
      }
      if exists i :: 0 <= i < |formats| && LabelOf(formats[i]) == Some(k) {
        var i :| 0 <= i < |formats| && LabelOf(formats[i]) == Some(k);
        if i < |init| {
          assert init[i] == formats[i];
        }
      }
    }
  }

  /** The indices below `n` of the labels found, in increasing order. */
  function OrderedIndices(found: set<nat>, n: nat): (r: seq<nat>)
    ensures forall i :: 0 <= i < |r| ==> r[i] < n
  {
    if n == 0 then []
    else
      var init := OrderedIndices(found, n - 1);
      if n - 1 in found then init + [n - 1] else init
  }

  /** The labels found, in the order of Labels. */
  function Ordered(found: set<nat>): (r: seq<string>)
    ensures |r| == |OrderedIndices(found, |Labels|)|
    ensures forall i :: 0 <= i < |r| ==> r[i] == Labels[OrderedIndices(found, |Labels|)[i]]
  {
    var idx := OrderedIndices(found, |Labels|);
    seq(|idx|, i requires 0 <= i < |idx| => Labels[idx[i]])
  }

  /** The nominal heights decrease along Labels. */
  lemma {:induction false} NominalDecreasing(a: nat, b: nat)
    requires a < b < 8
    ensures Nominal[a] > Nominal[b]
    decreases b - a
  {
    if b > a + 1 {
      NominalDecreasing(a + 1, b);
      NominalDecreasing(a, a + 1);
    }
  }

  /** The indices listed are those found below `n`. */
  lemma {:induction false} IndicesMembers(found: set<nat>, n: nat, k: nat)
    ensures k in OrderedIndices(found, n) <==> k < n && k in found
  {
    if n > 0 {
      IndicesMembers(found, n - 1, k);
    }
  }

  /** Strictly increasing. */
  predicate Increasing(s: seq<nat>) {
    forall i, j :: 0 <= i < j < |s| ==> s[i] < s[j]
  }

  /** The indices listed increase. */
  lemma {:induction false} IndicesIncreasing(found: set<nat>, n: nat)
    ensures Increasing(OrderedIndices(found, n))
  {
    if n > 0 {
      var init := OrderedIndices(found, n - 1);
      IndicesIncreasing(found, n - 1);
      if n - 1 in found {
        var r := init + [n - 1];
        forall i, j | 0 <= i < j < |r| ensures r[i] < r[j] {
          if j < |init| {
            assert r[i] == init[i] && r[j] == init[j];
          } else {
            assert r[i] == init[i];
          }
        }
      }
    }
  }

  /** The list of labels holds each label found exactly once, from the
      tallest nominal height to the shortest: the order that sorting by
      `quality_order` in reverse gives (web_app.py:336-340). */
  lemma OrderedDescending(found: set<nat>)
    requires forall k :: k in found ==> k < 8
    ensures var idx := OrderedIndices(found, |Labels|);
      && (forall k: nat :: k in found <==> k in idx)
      && (forall i, j :: 0 <= i < j < |idx| ==> Nominal[idx[i]] > Nominal[idx[j]])
  {
    var idx := OrderedIndices(found, |Labels|);
    IndicesIncreasing(found, |Labels|);
    forall k: nat ensures k in found <==> k in idx {
      IndicesMembers(found, |Labels|, k);
    }
    NominalsDecrease(idx);
  }

  /** Increasing indices pick decreasing nominal heights. */
  lemma NominalsDecrease(idx: seq<nat>)
    requires forall i :: 0 <= i < |idx| ==> idx[i] < 8
    requires Increasing(idx)
    ensures forall i, j :: 0 <= i < j < |idx| ==> Nominal[idx[i]] > Nominal[idx[j]]
  {
    forall i, j | 0 <= i < j < |idx| ensures Nominal[idx[i]] > Nominal[idx[j]] {
      NominalDecreasing(idx[i], idx[j]);
    }
  }

  /** The language code and name an audio format contributes: its
      `language`, else its `lang`; the name is `language_name` or the code.
      Formats without audio, or whose code is missing or `unknown`, add
      nothing (web_app.py:324-328). */
  function LanguageEntry(f: Format): (e: Option<(string, string)>)
    ensures e.Some? <==> HasCodec(f.acodec) && Truthy(LanguageOf(f)) && LanguageOf(f).value != "unknown"
    ensures e.Some? ==> e.value.0 == LanguageOf(f).value
    ensures e.Some? ==> e.value.1 == (if Truthy(f.languageName) then f.languageName.value else e.value.0)
  {
    if !HasCodec(f.acodec) then None
    else
      var code := OrElse(OrElse(f.language, f.lang), Some("unknown")).value;
      var name := OrElse(f.languageName, Some(code)).value;
      if code != "" && code != "unknown" then Some((code, name)) else None
  }

  /** The audio languages found, code to name; a later format overrides the
      name of an earlier one with the same code. */
  function LanguageMap(formats: seq<Format>): (m: map<string, string>)
    ensures "unknown" !in m && "" !in m
  {
    if formats == [] then map[]
    else
      var rest := LanguageMap(formats[..|formats| - 1]);
      match LanguageEntry(formats[|formats| - 1])
      case Some(e) => rest[e.0 := e.1]
      case None => rest
  }

  /** A code is listed exactly when some audio format has it. */
  lemma {:induction false} LanguageMapKeys(formats: seq<Format>, code: string)
    ensures code in LanguageMap(formats) <==>
      exists i :: 0 <= i < |formats| && LanguageEntry(formats[i]).Some? && LanguageEntry(formats[i]).value.0 == code
    decreases |formats|
  {
    if formats != [] {
      var init := formats[..|formats| - 1];
      LanguageMapKeys(init, code);
      if code in LanguageMap(init) {
        var i :| 0 <= i < |init| && LanguageEntry(init[i]).Some? && LanguageEntry(init[i]).value.0 == code;
        assert formats[i] == init[i];
      }
      if exists i :: 0 <= i < |formats| && LanguageEntry(formats[i]).Some? && LanguageEntry(formats[i]).value.0 == code {
        var i :| 0 <= i < |formats| && LanguageEntry(formats[i]).Some? && LanguageEntry(formats[i]).value.0 == code;
        if i < |init| {
          assert init[i] == formats[i];
        }
      }
    }
  }

  /** Python's `<` on strings: by code point, a proper prefix first. */
  predicate StrLess(a: string, b: string)
    decreases |a|
  {
    |b| > 0 && (|a| == 0 || a[0] < b[0] || (a[0] == b[0] && StrLess(a[1..], b[1..])))
  }

  lemma {:induction false} StrLessTotal(a: string, b: string)
    ensures a == b || StrLess(a, b) || StrLess(b, a)
    decreases |a|
  {
    if |a| > 0 && |b| > 0 && a[0] == b[0] {
      StrLessTotal(a[1..], b[1..]);
      if a[1..] == b[1..] {
        assert a == [a[0]] + a[1..] && b == [b[0]] + b[1..];
      }
    }
  }

  lemma {:induction false} StrLessTransitive(a: string, b: string, c: string)
    requires StrLess(a, b) && StrLess(b, c)
    ensures StrLess(a, c)
    decreases |a|
  {
    if |a| > 0 && a[0] == b[0] && b[0] == c[0] {
      StrLessTransitive(a[1..], b[1..], c[1..]);
    }
  }

  lemma {:induction false} StrLessIrreflexive(a: string)
    ensures !StrLess(a, a)
    decreases |a|
  {
    if |a| > 0 {
      StrLessIrreflexive(a[1..]);
    }
  }

  /** Strings in strictly increasing order. */
  predicate SortedStrings(ks: seq<string>) {
    forall i, j :: 0 <= i < j < |ks| ==> StrLess(ks[i], ks[j])
  }

  /** Insertion of a string not yet listed into a sorted list. */
  function InsertKey(x: string, ks: seq<string>): (r: seq<string>)
    requires SortedStrings(ks) && x !in ks
    ensures SortedStrings(r)
    ensures |r| == |ks| + 1
    ensures forall y :: y in r <==> y == x || y in ks
  {
    if ks == [] then [x]
    else if StrLess(x, ks[0]) then
      forall j | 0 < j < |ks| ensures StrLess(x, ks[j]) {
        StrLessTransitive(x, ks[0], ks[j]);
      }
      [x] + ks
    else
      StrLessTotal(x, ks[0]);
      var rest := InsertKey(x, ks[1..]);
      forall j | 0 <= j < |rest| ensures StrLess(ks[0], rest[j]) {
        assert rest[j] in rest;
        if rest[j] != x {
          var k :| 0 <= k < |ks[1..]| && ks[1..][k] == rest[j];
          assert ks[k + 1] == rest[j];
        }
      }
      assert forall y :: y in ks <==> y == ks[0] || y in ks[1..];
      [ks[0]] + rest
  }

  /** `sorted(m.items())` for a map: the pairs in strictly increasing code
      order (the codes are distinct, so the names never decide), each pair
      of the map once. */
  predicate SortedItems(r: seq<(string, string)>, m: map<string, string>) {
    && |r| == |m|
    && (forall i, j :: 0 <= i < j < |r| ==> StrLess(r[i].0, r[j].0))
    && (forall i :: 0 <= i < |r| ==> r[i].0 in m && r[i].1 == m[r[i].0])
    && (forall k :: k in m ==> exists i :: 0 <= i < |r| && r[i].0 == k)
  }

  /** Adding a format adds its label, if any. */
  lemma QualitySetSnoc(formats: seq<Format>, f: Format)
    ensures QualitySet(formats + [f]) == QualitySet(formats) + (if LabelOf(f).Some? then {LabelOf(f).value} else {})
  {
    assert (formats + [f])[..|formats|] == formats;
  }

  /** Adding a format adds or renames its language, if any. */
  lemma LanguageMapSnoc(formats: seq<Format>, f: Format)
    ensures LanguageMap(formats + [f]) == if LanguageEntry(f).Some? then
      LanguageMap(formats)[LanguageEntry(f).value.0 := LanguageEntry(f).value.1] else LanguageMap(formats)
  {
    assert (formats + [f])[..|formats|] == formats;
  }

  /** The available qualities and audio languages (web_app.py:285-343).
      The formats are scanned once, collecting the labels and the languages;
      the language codes are kept sorted as they are found, in place of the
      final `sorted` call. */
  method ExtractInfo(formats: seq<Format>) returns (qualities: seq<string>, languages: seq<(string, string)>)
    ensures qualities == Ordered(QualitySet(formats))
    ensures SortedItems(languages, LanguageMap(formats))
  {
    var found: set<nat> := {};
    var langs: map<string, string> := map[];
    var codes: seq<string> := [];
    var i := 0;
    while i < |formats|
      invariant i <= |formats|
      invariant found == QualitySet(formats[..i])
      invariant langs == LanguageMap(formats[..i])
      invariant SortedStrings(codes) && |codes| == |langs|
      invariant forall c :: c in codes <==> c in langs
    {
      var f := formats[i];
      assert formats[..i + 1] == formats[..i] + [f];
      QualitySetSnoc(formats[..i], f);
      LanguageMapSnoc(formats[..i], f);
      match LabelOf(f) {
        case Some(k) => found := found + {k};
        case None =>
      }
      match LanguageEntry(f) {
        case Some(e) =>
          if e.0 !in langs {
            codes := InsertKey(e.0, codes);
          }
          langs := langs[e.0 := e.1];
        case None =>
      }
      i := i + 1;
    }
    assert formats[..i] == formats;
    qualities := Ordered(found);
    languages := Items(codes, langs);
  }

  /** The pairs of a map listed in the order of its sorted keys. */
  function Items(codes: seq<string>, langs: map<string, string>): (r: seq<(string, string)>)
    requires SortedStrings(codes) && |codes| == |langs|
    requires forall c :: c in codes <==> c in langs
    ensures SortedItems(r, langs)
  {
    var r := seq(|codes|, j requires 0 <= j < |codes| => (codes[j], langs[codes[j]]));
    assert forall k | k in langs :: exists j :: 0 <= j < |r| && r[j].0 == k by {
      forall k | k in langs ensures exists j :: 0 <= j < |r| && r[j].0 == k {
        var j :| 0 <= j < |codes| && codes[j] == k;
        assert r[j].0 == k;
      }
    }
    r
  }

  /** A format that has only a height. */
  function HeightOnly(h: int): Format {
    Format(None, None, None, None, Some(h), None, None, None, None, None, None, None, None)
  }


  /** The heights of test_quality_fix.py:16-27 give exactly the labels
      1080p, 720p, 480p, 360p, 240p and 144p (test_quality_fix.py:67-69). */
  lemma TestHeights()
    ensures var formats := [HeightOnly(480), HeightOnly(360), HeightOnly(240), HeightOnly(144), HeightOnly(720),
                            HeightOnly(1080), HeightOnly(482), HeightOnly(358), HeightOnly(238), HeightOnly(146)];
      QualitySet(formats) == {2, 3, 4, 5, 6, 7}
  {
    var s0: seq<Format> := [];
    var s1 := s0 + [HeightOnly(480)];
    var s2 := s1 + [HeightOnly(360)];
    var s3 := s2 + [HeightOnly(240)];
    var s4 := s3 + [HeightOnly(144)];
    var s5 := s4 + [HeightOnly(720)];
    var s6 := s5 + [HeightOnly(1080)];
    var s7 := s6 + [HeightOnly(482)];
    var s8 := s7 + [HeightOnly(358)];
    var s9 := s8 + [HeightOnly(238)];
    var s10 := s9 + [HeightOnly(146)];
    QualitySetSnoc(s0, HeightOnly(480));
    QualitySetSnoc(s1, HeightOnly(360));
    QualitySetSnoc(s2, HeightOnly(240));
    QualitySetSnoc(s3, HeightOnly(144));
    QualitySetSnoc(s4, HeightOnly(720));
    QualitySetSnoc(s5, HeightOnly(1080));
    QualitySetSnoc(s6, HeightOnly(482));
    QualitySetSnoc(s7, HeightOnly(358));
    QualitySetSnoc(s8, HeightOnly(238));
    QualitySetSnoc(s9, HeightOnly(146));
    assert QualitySet(s10) == {2, 3, 4, 5, 6, 7};
    assert s10 == [HeightOnly(480), HeightOnly(360), HeightOnly(240), HeightOnly(144), HeightOnly(720),
                   HeightOnly(1080), HeightOnly(482), HeightOnly(358), HeightOnly(238), HeightOnly(146)];
  }

  /** Those labels are listed as 1080p, 720p, 480p, 360p, 240p, 144p. */
  lemma TestHeightsOrder()
    ensures Ordered({2, 3, 4, 5, 6, 7}) == ["1080p", "720p", "480p", "360p", "240p", "144p"]
  {
    var found: set<nat> := {2, 3, 4, 5, 6, 7};
    assert OrderedIndices(found, 2) == [];
    assert OrderedIndices(found, 3) == [2];
    assert OrderedIndices(found, 4) == [2, 3];
    assert OrderedIndices(found, 5) == [2, 3, 4];
    assert OrderedIndices(found, 6) == [2, 3, 4, 5];
    assert OrderedIndices(found, 7) == [2, 3, 4, 5, 6];
    assert OrderedIndices(found, 8) == [2, 3, 4, 5, 6, 7];
    var r := Ordered(found);
    var expected := ["1080p", "720p", "480p", "360p", "240p", "144p"];
    assert |r| == 6;
    assert r[0] == Labels[2] && r[1] == Labels[3] && r[2] == Labels[4];
    assert r[3] == Labels[5] && r[4] == Labels[6] && r[5] == Labels[7];
    assert forall i :: 0 <= i < 6 ==> r[i] == expected[i];
  }

  /** The name check of `download_by_filename` (web_app.py:608-624), on the
      base name after URL decoding: no `/`, no `..`, no leading dot. A safe
      name is a single path component, never `.` or `..`. */
  predicate SafeName(name: string): (b: bool)
    ensures b ==> '/' !in name && name != "." && name != ".."
  {
    '/' !in name && !Contains(name, "..") && !IsPrefix(".", name)
  }

  /** The request name: the base name of the path, URL-decoded. Decoding is
      an input. Without decoding the name holds no `/`, and a path that ends
      with `/` gives the decoding of the empty name. */
  function RequestName(path: string, unquote: string -> string): (r: string)
    ensures (forall s :: unquote(s) == s) ==> '/' !in r
    ensures |path| > 0 && path[|path| - 1] == '/' ==> r == unquote("")
  {
    unquote(BaseName(path))
  }

  /** A directory entry matches when its name equals the requested one,
      equals it ignoring case, or one contains the other (web_app.py:633-643).
      The empty name matches every entry. */
  predicate Matches(entry: string, name: string): (b: bool)
    ensures entry == name || name == "" ==> b
  {
    entry == name || Lower(entry) == Lower(name) || Contains(entry, name) || Contains(name, entry)
  }

  /** The file served for a name, given whether the name itself is a file in
      the download directory and the directory's files in listing order:
      None for a refused name or no match, else the name itself or the first
      matching file. */
  function FindFile(name: string, direct: bool, listing: seq<string>): (r: Option<string>)
    ensures !SafeName(name) ==> r.None?
    ensures SafeName(name) && direct ==> r == Some(name)
    ensures r.Some? && !direct ==> r.value in listing && Matches(r.value, name)
    ensures SafeName(name) && !direct ==>
      (r.None? <==> forall i :: 0 <= i < |listing| ==> !Matches(listing[i], name))
    ensures SafeName(name) && !direct && r.Some? ==>
      exists i :: 0 <= i < |listing| && listing[i] == r.value &&
                  (forall j :: 0 <= j < i ==> !Matches(listing[j], name))
  {
    if !SafeName(name) then None
    else if direct then Some(name)
    else FirstMatch(name, listing)
  }

  /** The first file of the listing that matches. */
  function FirstMatch(name: string, listing: seq<string>): (r: Option<string>)
    ensures r.Some? ==> r.value in listing && Matches(r.value, name)
    ensures r.None? <==> forall i :: 0 <= i < |listing| ==> !Matches(listing[i], name)
    ensures r.Some? ==> exists i :: 0 <= i < |listing| && listing[i] == r.value &&
                          (forall j :: 0 <= j < i ==> !Matches(listing[j], name))
  {
    if listing == [] then None
    else if Matches(listing[0], name) then Some(listing[0])
    else
      var r := FirstMatch(name, listing[1..]);
      if r.Some? then
        var i :| 0 <= i < |listing[1..]| && listing[1..][i] == r.value &&
                 (forall j :: 0 <= j < i ==> !Matches(listing[1..][j], name));
        assert listing[i + 1] == r.value;
        assert forall j :: 0 < j <= i ==> listing[j] == listing[1..][j - 1];
        r
      else r
  }

  /** A name with a parent-directory step never reaches a lookup. */
  lemma TraversalRefused(name: string, direct: bool, listing: seq<string>)
    requires Contains(name, "..")
    ensures FindFile(name, direct, listing).None?
    ensures FindFileChecked(name, direct, listing).None?
  {
  }

  /** A request path that ends with `/` has an empty base name. */
  lemma TrailingSlashEmptyBase(path: string)
    requires |path| > 0 && path[|path| - 1] == '/'
    ensures BaseName(path) == ""
  {
  }

  /** As written, a request for `<dir>/` is not refused: its base name is
      empty, the empty name is not a file, and the empty name is contained in
      every name, so the first file of the listing is served whatever it is. */
  lemma EmptyNameServesFirstFile(dir: string, unquote: string -> string, listing: seq<string>)
    requires unquote("") == "" && |listing| > 0
    ensures FindFile(RequestName(dir + "/", unquote), false, listing) == Some(listing[0])
  {
    TrailingSlashEmptyBase(dir + "/");
    assert IsPrefix("", listing[0]);
  }

  /** The lookup with an empty name refused as well: a file is served only
      for a non-empty safe name, and it is that name or the first file that
      matches it. */
  function FindFileChecked(name: string, direct: bool, listing: seq<string>): (r: Option<string>)
    ensures !SafeName(name) || name == "" ==> r.None?
    ensures r.Some? ==> name != "" && (r.value == name || (r.value in listing && Matches(r.value, name)))
    ensures SafeName(name) && name != "" && direct ==> r == Some(name)
    ensures SafeName(name) && name != "" && !direct ==>
      (r.None? <==> forall i :: 0 <= i < |listing| ==> !Matches(listing[i], name))
  {
    if name == "" then None else FindFile(name, direct, listing)
  }

  /** With the empty name refused, a request path ending in `/` is served
      nothing. */
  lemma CheckedRefusesTrailingSlash(dir: string, unquote: string -> string, direct: bool, listing: seq<string>)
    requires unquote("") == ""
    ensures FindFileChecked(RequestName(dir + "/", unquote), direct, listing).None?
  {
    TrailingSlashEmptyBase(dir + "/");
  }
}
