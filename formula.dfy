/** Formula/gitflow-toolkit.rb: the Homebrew formula. It derives the version
    from the latest release tag, reads the release's checksum manifest, picks
    the artifact for the platform, and links the git subcommands. The two
    downloads are parameters: the caller supplies the tag and the manifest text. */
module Formula {
  import opened Wrappers
  import opened GoStrings
  import Consts

  /** `delete_prefix("v")` on the release tag. */
  function Version(tag: string): (v: string)
    ensures HasPrefix(tag, "v") ==> tag == "v" + v
    ensures !HasPrefix(tag, "v") ==> v == tag
  {
    TrimPrefix(tag, "v")
  }

  /** Only one leading `v` is removed. */
  lemma VersionOfTag(x: string)
    ensures Version("v" + x) == x
    ensures Version("vv" + x) == "v" + x
  {
    assert HasPrefix("v" + x, "v");
    assert HasPrefix("vv" + x, "v");
    assert ("vv" + x)[1..] == "v" + x;
  }

  /** Where the release's files are downloaded from; the `v` is put back. */
  const ReleaseDownload := "https://github.com/" + "mritd/gitflow-toolkit" + "/releases/download/"

  function ReleaseUrl(version: string, file: string): string {
    ReleaseDownload + "v" + version + "/" + file
  }

  function ChecksumsUrl(version: string): string {
    ReleaseUrl(version, "checksums.txt")
  }

  /** The tag's version, put back into the download path, gives the tag again. */
  lemma ReleaseUsesTag(x: string, file: string)
    ensures ReleaseUrl(Version("v" + x), file) == ReleaseDownload + "v" + x + "/" + file
  {
    VersionOfTag(x);
  }

  // ---- The checksum manifest ----

  /** The characters Ruby's `strip` removes: null and ASCII white space. */
  predicate RubySpace(c: char) {
    c == '\0' || c == '\t' || c == '\n' || c == '\U{B}' || c == '\U{C}' || c == '\r' || c == ' '
  }

  function StripLeft(s: string): (r: string)
    ensures |r| <= |s| && r == s[|s| - |r|..]
    ensures r != "" ==> !RubySpace(r[0])
    ensures forall k :: 0 <= k < |s| - |r| ==> RubySpace(s[k])
  {
    if s != "" && RubySpace(s[0]) then
      var r := StripLeft(s[1..]);
      assert s[1..][|s| - 1 - |r|..] == s[|s| - |r|..];
      assert forall k :: 1 <= k < |s| - |r| ==> s[1..][k - 1] == s[k];
      r
    else s
  }

  function StripRight(s: string): (r: string)
    ensures |r| <= |s| && r == s[..|r|]
    ensures r != "" ==> !RubySpace(r[|r| - 1])
    ensures forall k :: |r| <= k < |s| ==> RubySpace(s[k])
  {
    if s != "" && RubySpace(s[|s| - 1]) then StripRight(s[..|s| - 1]) else s
  }

  /** String#strip. */
  function Strip(s: string): string {
    StripRight(StripLeft(s))
  }

  /** String#lines: the text cut after every newline, each line keeping its
      newline; a last line without one is kept as it is. */
  function Lines(s: string): (ls: seq<string>)
    ensures forall k :: 0 <= k < |ls| ==> ls[k] != ""
    decreases |s|
  {
    if s == "" then []
    else
      var i := FirstNewline(s, 0);
      if i < 0 then [s] else [s[..i + 1]] + Lines(s[i + 1..])
  }

  /** The first line and the rest of a text with a newline at `i`. */
  lemma LinesUnfold(s: string, i: int)
    requires s != "" && i == FirstNewline(s, 0) && i >= 0
    ensures Lines(s) == [s[..i + 1]] + Lines(s[i + 1..])
  {
  }

  /** The lines, one after another, give the text back. */
  lemma {:induction false} LinesConcat(s: string)
    ensures Concat(Lines(s)) == s
    decreases |s|
  {
    if s != "" {
      var i := FirstNewline(s, 0);
      if i < 0 {
        ConcatCons(s, []);
        assert [s] + [] == [s];
      } else {
        LinesUnfold(s, i);
        LinesConcat(s[i + 1..]);
        ConcatCons(s[..i + 1], Lines(s[i + 1..]));
        assert s == s[..i + 1] + s[i + 1..];
      }
    }
  }

  /** A line with no newline before its last character. */
  predicate NoInnerNewline(line: string) {
    forall j :: 0 <= j < |line| - 1 ==> line[j] != '\n'
  }

  /** Every line but the last ends in its newline. */
  lemma {:induction false} LinesEndInNewline(s: string)
    ensures forall k :: 0 <= k < |Lines(s)| - 1 ==> Lines(s)[k][|Lines(s)[k]| - 1] == '\n'
    decreases |s|
  {
    if s != "" {
      var i := FirstNewline(s, 0);
      if i >= 0 {
        var ls, rest := Lines(s), Lines(s[i + 1..]);
        LinesUnfold(s, i);
        LinesEndInNewline(s[i + 1..]);
        forall k | 0 <= k < |ls| - 1
          ensures ls[k][|ls[k]| - 1] == '\n'
        {
          if k > 0 {
            assert ls[k] == rest[k - 1];
          }
        }
      }
    }
  }

  /** No line holds a newline before its last character. */
  lemma {:induction false} LinesNoInnerNewline(s: string)
    ensures forall k :: 0 <= k < |Lines(s)| ==> NoInnerNewline(Lines(s)[k])
    decreases |s|
  {
    if s != "" {
      var i := FirstNewline(s, 0);
      var ls := Lines(s);
      if i < 0 {
        assert ls == [s];
      } else {
        var rest := Lines(s[i + 1..]);
        LinesUnfold(s, i);
        LinesNoInnerNewline(s[i + 1..]);
        assert NoInnerNewline(ls[0]) by {
          forall j | 0 <= j < |ls[0]| - 1 ensures ls[0][j] != '\n' {
            assert ls[0][j] == s[j];
          }
        }
        forall k | 1 <= k < |ls|
          ensures NoInnerNewline(ls[k])
        {
          assert ls[k] == rest[k - 1];
        }
      }
    }
  }

  /** The lines are the text cut after each newline: together they give the
      text back, every line but the last ends in its newline, and no line
      holds a newline anywhere else. */
  lemma LinesPieces(s: string)
    ensures Concat(Lines(s)) == s
    ensures forall k :: 0 <= k < |Lines(s)| - 1 ==> Lines(s)[k][|Lines(s)[k]| - 1] == '\n'
    ensures forall k :: 0 <= k < |Lines(s)| ==> NoInnerNewline(Lines(s)[k])
  {
    LinesConcat(s);
    LinesEndInNewline(s);
    LinesNoInnerNewline(s);
  }

  /** The first newline at or after `from`, or -1. */
  function FirstNewline(s: string, from: nat): (i: int)
    requires from <= |s|
    ensures i == -1 || from <= i < |s|
    ensures i >= 0 ==> s[i] == '\n' && forall k :: from <= k < i ==> s[k] != '\n'
    ensures i < 0 ==> forall k :: from <= k < |s| ==> s[k] != '\n'
    decreases |s| - from
  {
    if from == |s| then -1
    else if s[from] == '\n' then from
    else FirstNewline(s, from + 1)
  }

  /** The separator between the digest and the file name. */
  const FieldSep := "  "

  /** String#split with a string: the pieces between the separators, left to
      right, with trailing empty pieces dropped (so the empty string has none). */
  function RubySplit(s: string, sep: string): seq<string>
    requires sep != ""
  {
    if s == "" then [] else DropTrailingEmpty(Split(s, sep))
  }

  function DropTrailingEmpty(parts: seq<string>): (r: seq<string>)
    ensures |r| <= |parts| && r == parts[..|r|]
    ensures r != [] ==> r[|r| - 1] != ""
  {
    if parts != [] && parts[|parts| - 1] == "" then DropTrailingEmpty(parts[..|parts| - 1]) else parts
  }

  /** One manifest line as a (file name, digest) pair: stripped, split on two
      spaces and reversed. A line that does not give exactly two fields is
      rejected, which makes `to_h` raise. */
  function Entry(line: string): (e: Option<(string, string)>)
    ensures e.Some? <==> |RubySplit(Strip(line), FieldSep)| == 2
  {
    var fields := RubySplit(Strip(line), FieldSep);
    if |fields| == 2 then Some((fields[1], fields[0])) else None
  }

  /** Each line's entry, in order. */
  function Entries(lines: seq<string>): (es: seq<Option<(string, string)>>)
    ensures |es| == |lines|
    ensures forall k :: 0 <= k < |lines| ==> es[k] == Entry(lines[k])
    decreases |lines|
  {
    if lines == [] then [] else [Entry(lines[0])] + Entries(lines[1..])
  }

  /** `to_h` over the entries, in order; a later file name replaces an earlier one,
      and a rejected entry fails the whole conversion. */
  function ToHash(es: seq<Option<(string, string)>>, acc: map<string, string>): Option<map<string, string>>
    decreases |es|
  {
    if es == [] then Some(acc)
    else if es[0].None? then None
    else ToHash(es[1..], acc[es[0].value.0 := es[0].value.1])
  }

  /** The parsed manifest, or None when the formula fails to load. */
  function Manifest(text: string): Option<map<string, string>> {
    ToHash(Entries(Lines(text)), map[])
  }

  /** The conversion fails exactly when some entry is rejected. */
  lemma {:induction false} ToHashFails(es: seq<Option<(string, string)>>, acc: map<string, string>)
    ensures ToHash(es, acc).None? <==> None in es
    decreases |es|
  {
    if es != [] {
      assert es == [es[0]] + es[1..];
      if es[0].Some? {
        ToHashFails(es[1..], acc[es[0].value.0 := es[0].value.1]);
      }
    }
  }

  /** The manifest fails to parse exactly when one of its lines is not a valid entry. */
  lemma ParseFailsOnBadLine(text: string)
    ensures Manifest(text).None? <==>
      exists k :: 0 <= k < |Lines(text)| && Entry(Lines(text)[k]).None?
  {
    var es := Entries(Lines(text));
    ToHashFails(es, map[]);
    if None in es {
      var k :| 0 <= k < |es| && es[k] == None;
      assert Entry(Lines(text)[k]).None?;
    }
    if exists k :: 0 <= k < |Lines(text)| && Entry(Lines(text)[k]).None? {
      var k :| 0 <= k < |Lines(text)| && Entry(Lines(text)[k]).None?;
      assert es[k] == None;
    }
  }

  /** Appending an entry adds it on top of what came before. */
  lemma {:induction false} ToHashSnoc(es: seq<Option<(string, string)>>, e: (string, string), acc: map<string, string>)
    requires ToHash(es, acc).Some?
    ensures ToHash(es + [Some(e)], acc) == Some(ToHash(es, acc).value[e.0 := e.1])
    decreases |es|
  {
    if es == [] {
      assert es + [Some(e)] == [Some(e)];
    } else {
      assert (es + [Some(e)])[0] == es[0];
      assert (es + [Some(e)])[1..] == es[1..] + [Some(e)];
      ToHashSnoc(es[1..], e, acc[es[0].value.0 := es[0].value.1]);
    }
  }

  /** A later line for the same file overrides the digest an earlier one gave. */
  lemma LaterDuplicateWins(lines: seq<string>, line: string)
    requires ToHash(Entries(lines), map[]).Some? && Entry(line).Some?
    ensures var m := ToHash(Entries(lines + [line]), map[]);
      m.Some? && Entry(line).value.0 in m.value && m.value[Entry(line).value.0] == Entry(line).value.1
  {
    assert Entries(lines + [line]) == Entries(lines) + [Entry(line)];
    ToHashSnoc(Entries(lines), Entry(line).value, map[]);
  }

  /** A manifest entry as `sha256sum` writes it: digest, two spaces, file name. */
  predicate Word(w: string) {
    w != "" && forall k :: 0 <= k < |w| ==> !RubySpace(w[k])
  }

  function ManifestLine(digest: string, file: string): string {
    digest + FieldSep + file + "\n"
  }

  /** A manifest line of two words parses back into its (file name, digest) pair. */
  lemma EntryOfManifestLine(digest: string, file: string)
    requires Word(digest) && Word(file)
    ensures Entry(ManifestLine(digest, file)) == Some((file, digest))
  {
    var body := digest + FieldSep + file;
    var line := ManifestLine(digest, file);
    assert line == body + "\n";
    StripOfWords(digest, file);
    SplitTwoWords(digest, file);
  }

  lemma StripOfWords(digest: string, file: string)
    requires Word(digest) && Word(file)
    ensures Strip(ManifestLine(digest, file)) == digest + FieldSep + file
  {
    var body := digest + FieldSep + file;
    var line := body + "\n";
    assert line[0] == digest[0];
    assert StripLeft(line) == line;
    assert line[..|line| - 1] == body;
    assert StripRight(line) == StripRight(body);
    assert body[|body| - 1] == file[|file| - 1];
    assert StripRight(body) == body;
  }

  lemma SplitTwoWords(digest: string, file: string)
    requires Word(digest) && Word(file)
    ensures RubySplit(digest + FieldSep + file, FieldSep) == [digest, file]
  {
    var s := digest + FieldSep + file;
    NoSepInWord(digest);
    NoSepInWord(file);
    IndexOfSep(digest, file);
    assert s[..|digest|] == digest;
    assert s[|digest| + 2..] == file;
    assert Split(file, FieldSep) == [file];
    assert Split(s, FieldSep) == [digest] + Split(file, FieldSep);
  }

  lemma NoSepInWord(w: string)
    requires Word(w)
    ensures !Contains(w, FieldSep)
  {
    NotContainsMissingChar(w, FieldSep, 0);
  }

  lemma IndexOfSep(digest: string, file: string)
    requires Word(digest) && Word(file)
    ensures Index(digest + FieldSep + file, FieldSep) == |digest|
  {
    var s := digest + FieldSep + file;
    assert s[|digest|..|digest| + 2] == FieldSep;
    assert OccursAt(s, FieldSep, |digest|);
    NoSepInside(digest, file);
  }

  /** No separator starts inside the digest. */
  lemma NoSepInside(digest: string, file: string)
    requires Word(digest)
    ensures forall j :: 0 <= j < |digest| ==> !OccursAt(digest + FieldSep + file, FieldSep, j)
  {
    var s := digest + FieldSep + file;
    forall j | 0 <= j < |digest|
      ensures !OccursAt(s, FieldSep, j)
    {
      assert s[j..j + 2][0] == digest[j];
    }
  }

  /** A manifest of entries rendered line by line. */
  function Render(entries: seq<(string, string)>): string
    decreases |entries|
  {
    if entries == [] then "" else ManifestLine(entries[0].0, entries[0].1) + Render(entries[1..])
  }

  /** The map a well-formed manifest yields: each file to its last digest. */
  function Expected(entries: seq<(string, string)>, acc: map<string, string>): map<string, string>
    decreases |entries|
  {
    if entries == [] then acc
    else Expected(entries[1..], acc[entries[0].1 := entries[0].0])
  }

  /** Parsing a rendered manifest gives back its entries, file name to digest. */
  lemma {:induction false} ManifestRoundTrip(entries: seq<(string, string)>, acc: map<string, string>)
    requires forall k :: 0 <= k < |entries| ==> Word(entries[k].0) && Word(entries[k].1)
    ensures ToHash(Entries(Lines(Render(entries))), acc) == Some(Expected(entries, acc))
    decreases |entries|
  {
    if entries != [] {
      var (d, f) := entries[0];
      var line := ManifestLine(d, f);
      var rest := Render(entries[1..]);
      LinesOfLine(d, f, rest);
      EntryOfManifestLine(d, f);
      var ls := [line] + Lines(rest);
      assert ls[0] == line && ls[1..] == Lines(rest);
      assert Entries(ls) == [Some((f, d))] + Entries(Lines(rest));
      ManifestRoundTrip(entries[1..], acc[f := d]);
    }
  }

  /** A manifest rendered from words parses into the map of its entries. */
  lemma RenderThenParse(entries: seq<(string, string)>)
    requires forall k :: 0 <= k < |entries| ==> Word(entries[k].0) && Word(entries[k].1)
    ensures Manifest(Render(entries)) == Some(Expected(entries, map[]))
  {
    ManifestRoundTrip(entries, map[]);
  }

  /** The first line of a rendered manifest is its first entry's line. */
  lemma LinesOfLine(digest: string, file: string, rest: string)
    requires Word(digest) && Word(file)
    ensures Lines(ManifestLine(digest, file) + rest) == [ManifestLine(digest, file)] + Lines(rest)
  {
    var line := ManifestLine(digest, file);
    var s := line + rest;
    var n := |line| - 1;
    assert s[n] == '\n';
    forall k | 0 <= k < n ensures s[k] != '\n' {
      assert s[k] == line[k];
      if k < |digest| {
        assert line[k] == digest[k];
      } else if k >= |digest| + 2 {
        assert line[k] == file[k - |digest| - 2];
      }
    }
    FirstNewlineAt(s, 0, n);
    assert s[..n + 1] == line;
    assert s[n + 1..] == rest;
  }

  lemma {:induction false} FirstNewlineAt(s: string, from: nat, n: nat)
    requires from <= n < |s| && s[n] == '\n' && forall k :: from <= k < n ==> s[k] != '\n'
    ensures FirstNewline(s, from) == n
    decreases n - from
  {
    if from < n {
      FirstNewlineAt(s, from + 1, n);
    }
  }

  /** A blank line, such as an empty line between entries, makes the parse fail. */
  lemma BlankLineFails(text: string, k: int)
    requires 0 <= k < |Lines(text)| && Lines(text)[k] == "\n"
    ensures Manifest(text).None?
  {
    assert StripLeft("\n") == "";
    assert Entry(Lines(text)[k]).None?;
    ParseFailsOnBadLine(text);
  }

  // ---- Platforms and artifacts ----

  datatype Os = MacOS | Linux
  datatype Cpu = Intel | Arm

  /** The artifact suffix of the nested on_macos / on_linux / CPU conditionals. */
  function ArtifactSuffix(os: Os, cpu: Cpu, is64: bool): (suffix: string)
    ensures os == MacOS ==> suffix == (if cpu == Intel then "darwin-amd64" else "darwin-arm64")
    ensures os == Linux && cpu == Intel ==> suffix == (if is64 then "linux-amd64" else "linux-386")
    ensures os == Linux && cpu == Arm ==> suffix == (if is64 then "linux-arm64" else "linux-armv7")
  {
    match os
    case MacOS => if cpu == Intel then "darwin-amd64" else "darwin-arm64"
    case Linux =>
      if cpu == Intel then (if is64 then "linux-amd64" else "linux-386")
      else (if is64 then "linux-arm64" else "linux-armv7")
  }

  function ArtifactName(os: Os, cpu: Cpu, is64: bool): string {
    Consts.BinaryName + "-" + ArtifactSuffix(os, cpu, is64)
  }

  function ArtifactUrl(version: string, os: Os, cpu: Cpu, is64: bool): string {
    ReleaseUrl(version, ArtifactName(os, cpu, is64))
  }

  /** macOS has no 32-bit branch, and otherwise each platform gets its own artifact. */
  lemma ArtifactsDistinct(os1: Os, cpu1: Cpu, b1: bool, os2: Os, cpu2: Cpu, b2: bool)
    ensures ArtifactSuffix(MacOS, cpu1, b1) == ArtifactSuffix(MacOS, cpu1, !b1)
    ensures ArtifactSuffix(os1, cpu1, b1) == ArtifactSuffix(os2, cpu2, b2) <==>
      os1 == os2 && cpu1 == cpu2 && (os1 == MacOS || b1 == b2)
  {
    var s1 := ArtifactSuffix(os1, cpu1, b1);
    var s2 := ArtifactSuffix(os2, cpu2, b2);
    if s1 == s2 {
      assert s1[..5] == s2[..5];
      assert s1[6..] == s2[6..];
    }
  }

  /** `sha256 checksums[...]`: the manifest's digest for the artifact, if any. */
  function Sha256(manifest: map<string, string>, os: Os, cpu: Cpu, is64: bool): (d: Option<string>)
    ensures ArtifactName(os, cpu, is64) in manifest <==> d.Some?
    ensures d.Some? ==> d.value == manifest[ArtifactName(os, cpu, is64)]
  {
    var name := ArtifactName(os, cpu, is64);
    if name in manifest then Some(manifest[name]) else None
  }

  /** A file no entry names keeps whatever the accumulated map said of it. */
  lemma {:induction false} ExpectedMissing(entries: seq<(string, string)>, acc: map<string, string>, file: string)
    requires forall k :: 0 <= k < |entries| ==> entries[k].1 != file
    ensures file in Expected(entries, acc) <==> file in acc
    ensures file in acc ==> Expected(entries, acc)[file] == acc[file]
    decreases |entries|
  {
    if entries != [] {
      ExpectedMissing(entries[1..], acc[entries[0].1 := entries[0].0], file);
    }
  }

  /** The entry that names a file last decides its digest. */
  lemma {:induction false} ExpectedLast(entries: seq<(string, string)>, acc: map<string, string>, file: string, k: int)
    requires 0 <= k < |entries| && entries[k].1 == file
    requires forall j :: k < j < |entries| ==> entries[j].1 != file
    ensures file in Expected(entries, acc) && Expected(entries, acc)[file] == entries[k].0
    decreases |entries|
  {
    if k == 0 {
      ExpectedMissing(entries[1..], acc[file := entries[0].0], file);
    } else {
      ExpectedLast(entries[1..], acc[entries[0].1 := entries[0].0], file, k - 1);
    }
  }

  /** The checksum the formula reads from a rendered manifest: the digest of
      the last line naming the platform's artifact. */
  lemma RenderedChecksum(entries: seq<(string, string)>, os: Os, cpu: Cpu, is64: bool, k: int)
    requires forall j :: 0 <= j < |entries| ==> Word(entries[j].0) && Word(entries[j].1)
    requires 0 <= k < |entries| && entries[k].1 == ArtifactName(os, cpu, is64)
    requires forall j :: k < j < |entries| ==> entries[j].1 != ArtifactName(os, cpu, is64)
    ensures Manifest(Render(entries)).Some?
    ensures Sha256(Manifest(Render(entries)).value, os, cpu, is64) == Some(entries[k].0)
  {
    RenderThenParse(entries);
    ExpectedLast(entries, map[], ArtifactName(os, cpu, is64), k);
  }

  /** A rendered manifest without a line for the platform's artifact gives
      the formula no checksum. */
  lemma RenderedChecksumMissing(entries: seq<(string, string)>, os: Os, cpu: Cpu, is64: bool)
    requires forall j :: 0 <= j < |entries| ==> Word(entries[j].0) && Word(entries[j].1)
    requires forall j :: 0 <= j < |entries| ==> entries[j].1 != ArtifactName(os, cpu, is64)
    ensures Manifest(Render(entries)).Some?
    ensures Sha256(Manifest(Render(entries)).value, os, cpu, is64) == None
  {
    RenderThenParse(entries);
    ExpectedMissing(entries, map[], ArtifactName(os, cpu, is64));
  }

  /** `stable.url.split("/").last`: the downloaded file's name. */
  function LastSegment(url: string): Option<string> {
    var parts := RubySplit(url, "/");
    if parts == [] then None else Some(parts[|parts| - 1])
  }

  /** The last segment of a URL is the name after its final slash. */
  lemma {:induction false} LastSegmentOf(prefix: string, name: string)
    requires name != "" && '/' !in name
    ensures LastSegment(prefix + "/" + name) == Some(name)
    decreases |prefix|
  {
    var s := prefix + "/" + name;
    var parts := Split(s, "/");
    SplitLast(prefix, name);
    assert parts[|parts| - 1] == name;
    assert DropTrailingEmpty(parts) == parts;
  }

  lemma {:induction false} SplitLast(prefix: string, name: string)
    requires name != "" && '/' !in name
    ensures var parts := Split(prefix + "/" + name, "/"); parts[|parts| - 1] == name
    decreases |prefix|
  {
    var s := prefix + "/" + name;
    var i := Index(s, "/");
    assert OccursAt(s, "/", |prefix|) by {
      assert s[|prefix|..|prefix| + 1] == "/";
    }
    assert 0 <= i <= |prefix|;
    var parts := Split(s, "/");
    assert parts == [s[..i]] + Split(s[i + 1..], "/");
    if i == |prefix| {
      assert s[i + 1..] == name;
      NotContainsMissingChar(name, "/", 0);
    } else {
      assert s[i..i + 1] == "/";
      assert prefix[i] == '/';
      var p2 := prefix[i + 1..];
      assert s[i + 1..] == p2 + "/" + name;
      SplitLast(p2, name);
    }
  }

  /** Install takes the downloaded file and names it after the binary. */
  lemma InstalledFileIsArtifact(version: string, os: Os, cpu: Cpu, is64: bool)
    requires '/' !in version
    ensures LastSegment(ArtifactUrl(version, os, cpu, is64)) == Some(ArtifactName(os, cpu, is64))
  {
    var name := ArtifactName(os, cpu, is64);
    assert '/' !in name by {
      assert name == "gitflow-toolkit-" + ArtifactSuffix(os, cpu, is64);
    }
    assert ArtifactUrl(version, os, cpu, is64) == (ReleaseDownload + "v" + version) + "/" + name;
    LastSegmentOf(ReleaseDownload + "v" + version, name);
  }

  // ---- Install ----

  /** The word list of `install`. */
  const LinkedCommands: seq<string> := ["ci", "ps", "feat", "fix", "docs", "style", "refactor", "test", "chore", "perf", "hotfix"]

  /** A symlink: its name and the file it points at, both in the formula's bin. */
  datatype Symlink = Symlink(name: string, target: string)

  /** The loop of `install`: one `git-<cmd>` link per word, each pointing at the binary. */
  method InstallSymlinks() returns (links: seq<Symlink>)
    ensures |links| == |LinkedCommands|
    ensures forall i :: 0 <= i < |links| ==> links[i] == Symlink("git-" + LinkedCommands[i], Consts.BinaryName)
  {
    links := [];
    for i := 0 to |LinkedCommands|
      invariant |links| == i
      invariant forall k :: 0 <= k < i ==> links[k] == Symlink("git-" + LinkedCommands[k], Consts.BinaryName)
    {
      links := links + [Symlink("git-" + LinkedCommands[i], Consts.BinaryName)];
    }
  }

  /** The formula links the same commands as the tool's own installer, in the same order. */
  lemma SameCommandsAsInstaller()
    ensures LinkedCommands == Consts.SymlinkCommands()
    ensures |LinkedCommands| == 11 && Distinct(LinkedCommands)
  {
  }
}
