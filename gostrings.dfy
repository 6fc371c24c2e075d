/** The parts of Go's `strings` and `unicode` packages that the tool relies on,
    over Dafny strings (sequences of Unicode scalar values). Where Go counts
    bytes, `ByteLen` gives the UTF-8 length. */
module GoStrings {

  /** unicode.IsSpace: the Latin-1 spaces plus the other White_Space code points. */
  predicate IsSpace(c: char) {
    c == '\t' || c == '\n' || c == '\U{B}' || c == '\U{C}' || c == '\r' || c == ' '
    || c == '\U{85}' || c == '\U{A0}' || c == '\U{1680}'
    || ('\U{2000}' <= c <= '\U{200A}')
    || c == '\U{2028}' || c == '\U{2029}' || c == '\U{202F}' || c == '\U{205F}' || c == '\U{3000}'
  }

  /** Number of bytes of `c` in UTF-8. */
  function Utf8Len(c: char): (n: nat)
    ensures 1 <= n <= 4
    ensures n == 1 <==> c < '\U{80}'
  {
    if c < '\U{80}' then 1
    else if c < '\U{800}' then 2
    else if c < '\U{10000}' then 3
    else 4
  }

  /** Go's `len` on a string: its length in bytes. */
  function ByteLen(s: string): (n: nat)
    ensures n >= |s|
    ensures n == 0 <==> s == []
  {
    if s == [] then 0 else Utf8Len(s[0]) + ByteLen(s[1..])
  }

  predicate IsAscii(s: string) {
    forall i :: 0 <= i < |s| ==> s[i] < '\U{80}'
  }

  lemma {:induction false} ByteLenAscii(s: string)
    requires IsAscii(s)
    ensures ByteLen(s) == |s|
  {
    if s != [] {
      assert IsAscii(s[1..]) by {
        forall i | 0 <= i < |s[1..]| ensures s[1..][i] < '\U{80}' { assert s[1..][i] == s[i + 1]; }
      }
      ByteLenAscii(s[1..]);
    }
  }

  /** No value appears twice. */
  predicate Distinct(s: seq<string>) {
    forall i, j :: 0 <= i < j < |s| ==> s[i] != s[j]
  }

  predicate HasPrefix(s: string, prefix: string) {
    prefix <= s
  }

  predicate HasSuffix(s: string, suffix: string) {
    |suffix| <= |s| && s[|s| - |suffix|..] == suffix
  }

  /** strings.Join with an empty separator: the pieces one after another. */
  function Concat(pieces: seq<string>): string {
    if pieces == [] then [] else pieces[0] + Concat(pieces[1..])
  }

  lemma ConcatCons(p: string, ps: seq<string>)
    ensures Concat([p] + ps) == p + Concat(ps)
  {
    assert ([p] + ps)[1..] == ps;
  }

  /** strings.TrimPrefix: removes one leading `prefix` if present. */
  function TrimPrefix(s: string, prefix: string): (r: string)
    ensures HasPrefix(s, prefix) ==> s == prefix + r
    ensures !HasPrefix(s, prefix) ==> r == s
  {
    if HasPrefix(s, prefix) then s[|prefix|..] else s
  }

  /** strings.TrimSuffix: removes one trailing `suffix` if present. */
  function TrimSuffix(s: string, suffix: string): (r: string)
    ensures HasSuffix(s, suffix) ==> s == r + suffix
    ensures !HasSuffix(s, suffix) ==> r == s
  {
    if HasSuffix(s, suffix) then s[..|s| - |suffix|] else s
  }

  /** A string does not start with `p` once they differ at some index. */
  lemma PrefixMismatch(s: string, p: string, k: nat)
    requires k < |s| && k < |p| && s[k] != p[k]
    ensures !HasPrefix(s, p)
  {
  }

  lemma TrimNewline(x: string)
    ensures TrimSuffix(x + "\n", "\n") == x
  {
    var r := TrimSuffix(x + "\n", "\n");
    assert x + "\n" == r + "\n";
    assert x == (x + "\n")[..|x|] == (r + "\n")[..|r|] == r;
  }

  /** `sub` occurs in `s` at offset `i`. */
  predicate OccursAt(s: string, sub: string, i: int) {
    0 <= i && i + |sub| <= |s| && s[i..i + |sub|] == sub
  }

  /** strings.Index: the first offset of `sub` in `s`, or -1. */
  function Index(s: string, sub: string): (i: int)
    ensures -1 <= i <= |s|
    ensures i >= 0 ==> OccursAt(s, sub, i)
    ensures forall j :: 0 <= j < i || (i < 0 && 0 <= j) ==> !OccursAt(s, sub, j)
    decreases |s|
  {
    if HasPrefix(s, sub) then
      assert s[..|sub|] == sub;
      0
    else if s == [] then -1
    else
      var k := Index(s[1..], sub);
      IndexShift(s, sub, k);
      if k < 0 then -1 else k + 1
  }

  /** An occurrence past the first character is an occurrence in the tail. */
  lemma OccursShift(s: string, sub: string, j: int)
    requires s != [] && j >= 1
    ensures OccursAt(s, sub, j) <==> OccursAt(s[1..], sub, j - 1)
  {
    if j + |sub| <= |s| {
      assert s[1..][j - 1..j - 1 + |sub|] == s[j..j + |sub|];
    }
  }

  /** The first occurrence in the tail, moved one place, is the first in `s`
      when `s` does not start with `sub`. */
  lemma IndexShift(s: string, sub: string, k: int)
    requires s != [] && !HasPrefix(s, sub) && -1 <= k
    requires k >= 0 ==> OccursAt(s[1..], sub, k)
    requires forall j :: 0 <= j < k || (k < 0 && 0 <= j) ==> !OccursAt(s[1..], sub, j)
    ensures var i := if k < 0 then -1 else k + 1;
      && (i >= 0 ==> OccursAt(s, sub, i))
      && forall j :: 0 <= j < i || (i < 0 && 0 <= j) ==> !OccursAt(s, sub, j)
  {
    var i := if k < 0 then -1 else k + 1;
    if k >= 0 {
      OccursShift(s, sub, k + 1);
    }
    forall j | 0 <= j < i || (i < 0 && 0 <= j)
      ensures !OccursAt(s, sub, j)
    {
      if j != 0 {
        OccursShift(s, sub, j);
      }
    }
  }

  /** strings.LastIndex(s, [c]): the last offset of `c` in `s`, or -1. */
  function LastIndexChar(s: string, c: char): (i: int)
    ensures -1 <= i < |s|
    ensures i >= 0 ==> s[i] == c
    ensures forall k :: i < k < |s| ==> s[k] != c
  {
    if s == [] then -1
    else if s[|s| - 1] == c then |s| - 1
    else LastIndexChar(s[..|s| - 1], c)
  }

  /** strings.Contains. */
  predicate Contains(s: string, sub: string) {
    Index(s, sub) >= 0
  }

  lemma ContainsAt(s: string, sub: string, i: int)
    requires OccursAt(s, sub, i)
    ensures Contains(s, sub)
  {
  }

  /** `sub` found character by character at offset `i`. */
  lemma ContainsAtChars(s: string, sub: string, i: nat)
    requires i + |sub| <= |s| && forall k :: 0 <= k < |sub| ==> s[i + k] == sub[k]
    ensures Contains(s, sub)
  {
    forall k | 0 <= k < |sub| ensures s[i..i + |sub|][k] == sub[k] {
      assert s[i..i + |sub|][k] == s[i + k];
    }
    assert s[i..i + |sub|] == sub;
    ContainsAt(s, sub, i);
  }

  /** `sub` placed between two strings is contained in the result. */
  lemma ContainsMiddle(a: string, sub: string, b: string)
    ensures Contains(a + sub + b, sub)
  {
    assert (a + sub + b)[|a|..|a| + |sub|] == sub;
    ContainsAt(a + sub + b, sub, |a|);
  }

  /** strings.LastIndex(s, [c]) is `i` when `s[i]` is the last `c`. */
  lemma LastIndexCharAt(s: string, c: char, i: nat)
    requires i < |s| && s[i] == c && forall k :: i < k < |s| ==> s[k] != c
    ensures LastIndexChar(s, c) == i
  {
    var r := LastIndexChar(s, c);
    assert s[i] == c;
    if r >= 0 {
      assert s[r] == c;
    }
  }

  /** A string lacking one of `sub`'s characters does not contain `sub`. */
  lemma NotContainsMissingChar(s: string, sub: string, k: nat)
    requires k < |sub| && sub[k] !in s
    ensures !Contains(s, sub)
  {
    forall j | 0 <= j && j + |sub| <= |s| ensures !OccursAt(s, sub, j) {
      assert s[j..j + |sub|][k] == s[j + k];
    }
  }

  /** strings.ContainsAny: some character of `chars` occurs in `s`. */
  predicate ContainsAny(s: string, chars: string) {
    exists i :: 0 <= i < |s| && s[i] in chars
  }

  /** strings.Split with a non-empty separator. */
  function Split(s: string, sep: string): (parts: seq<string>)
    requires sep != []
    ensures |parts| >= 1
    ensures forall k :: 0 <= k < |parts| ==> !Contains(parts[k], sep)
    decreases |s|
  {
    var i := Index(s, sep);
    if i < 0 then [s]
    else
      assert !Contains(s[..i], sep) by {
        var j := Index(s[..i], sep);
        if j >= 0 {
          assert s[..i][j..j + |sep|] == s[j..j + |sep|];
          assert OccursAt(s, sep, j);
        }
      }
      [s[..i]] + Split(s[i + |sep|..], sep)
  }

  /** strings.Join. */
  function Join(parts: seq<string>, sep: string): (s: string)
  {
    if |parts| == 0 then ""
    else if |parts| == 1 then parts[0]
    else parts[0] + sep + Join(parts[1..], sep)
  }

  lemma {:induction false} JoinSplit(s: string, sep: string)
    requires sep != []
    ensures Join(Split(s, sep), sep) == s
    decreases |s|
  {
    var i := Index(s, sep);
    if i >= 0 {
      var rest := s[i + |sep|..];
      var parts := Split(rest, sep);
      JoinSplit(rest, sep);
      assert Split(s, sep) == [s[..i]] + parts;
      JoinCons(s[..i], parts, sep);
      assert s[i..i + |sep|] == sep;
      assert s == s[..i] + sep + rest;
    }
  }

  lemma JoinCons(head: string, tail: seq<string>, sep: string)
    requires |tail| >= 1
    ensures Join([head] + tail, sep) == head + sep + Join(tail, sep)
  {
    assert ([head] + tail)[1..] == tail;
  }

  lemma {:induction false} JoinSnoc(parts: seq<string>, last: string, sep: string)
    requires parts != []
    ensures Join(parts + [last], sep) == Join(parts, sep) + sep + last
    decreases |parts|
  {
    if |parts| > 1 {
      assert (parts + [last])[1..] == parts[1..] + [last];
      JoinSnoc(parts[1..], last, sep);
    }
  }

  lemma {:induction false} JoinAppend(a: seq<string>, b: seq<string>, sep: string)
    requires a != [] && b != []
    ensures Join(a + b, sep) == Join(a, sep) + sep + Join(b, sep)
    decreases |a|
  {
    if |a| == 1 {
      JoinCons(a[0], b, sep);
      assert [a[0]] == a;
    } else {
      assert (a + b)[1..] == a[1..] + b;
      JoinAppend(a[1..], b, sep);
    }
  }

  /** Splitting a joined list on the separator "\n\n" gives the list back
      when no part holds "\n\n" and no part but the last ends in a newline. */
  lemma {:induction false} SplitJoinParagraphs(parts: seq<string>)
    requires parts != []
    requires forall k :: 0 <= k < |parts| ==> !Contains(parts[k], "\n\n")
    requires forall k :: 0 <= k < |parts| - 1 ==> !HasSuffix(parts[k], "\n")
    ensures Split(Join(parts, "\n\n"), "\n\n") == parts
    decreases |parts|
  {
    var sep := "\n\n";
    if |parts| == 1 {
      assert Index(parts[0], sep) < 0;
    } else {
      var p0, tail := parts[0], parts[1..];
      var rest := Join(tail, sep);
      var s := p0 + sep + rest;
      JoinCons(p0, tail, sep);
      assert parts == [p0] + tail;
      ParagraphBoundary(p0, rest);
      assert s[..|p0|] == p0;
      assert s[|p0| + 2..] == rest;
      SplitJoinParagraphs(tail);
    }
  }

  /** The first "\n\n" after a paragraph without one, and without a final
      newline, is the separator that follows it. */
  lemma ParagraphBoundary(p0: string, rest: string)
    requires !Contains(p0, "\n\n") && !HasSuffix(p0, "\n")
    ensures Index(p0 + "\n\n" + rest, "\n\n") == |p0|
  {
    var sep := "\n\n";
    var s := p0 + sep + rest;
    assert s[|p0|..|p0| + 2] == sep;
    assert OccursAt(s, sep, |p0|);
    forall j | 0 <= j < |p0| ensures !OccursAt(s, sep, j) {
      if j + 2 <= |p0| {
        assert s[j..j + 2] == p0[j..j + 2];
        assert !OccursAt(p0, sep, j);
      } else {
        assert p0[|p0| - 1..] != "\n";
        assert s[j..j + 2][0] == p0[|p0| - 1] == p0[|p0| - 1..][0];
      }
    }
  }

  /** strings.SplitN(s, "\n", 2)[0] of a text that starts with `h` then a newline. */
  lemma FirstLineAfter(h: string, rest: string)
    requires !Contains(h, "\n")
    ensures Index(h + "\n" + rest, "\n") == |h|
  {
    var s := h + "\n" + rest;
    assert s[|h|..|h| + 1] == "\n";
    assert OccursAt(s, "\n", |h|);
    forall j | 0 <= j < |h| ensures !OccursAt(s, "\n", j) {
      assert s[j..j + 1] == h[j..j + 1];
      assert !OccursAt(h, "\n", j);
    }
  }

  /** Characters below U+0080 in `s` lowered with the ASCII mapping; others kept. */
  function ToLowerAscii(s: string): (r: string)
    ensures |r| == |s|
  {
    seq(|s|, i requires 0 <= i < |s| =>
      if 'A' <= s[i] <= 'Z' then (s[i] as int + 32) as char else s[i])
  }

  /** Leading characters satisfying IsSpace removed. */
  function TrimLeftSpace(s: string): (r: string)
    ensures |r| <= |s| && r == s[|s| - |r|..]
    ensures r != [] ==> !IsSpace(r[0])
    decreases |s|
  {
    if s != [] && IsSpace(s[0]) then TrimLeftSpace(s[1..]) else s
  }

  /** Trailing characters satisfying IsSpace removed. */
  function TrimRightSpace(s: string): (r: string)
    ensures |r| <= |s| && r == s[..|r|]
    ensures r != [] ==> !IsSpace(r[|r| - 1])
    decreases |s|
  {
    if s != [] && IsSpace(s[|s| - 1]) then TrimRightSpace(s[..|s| - 1]) else s
  }

  /** strings.TrimSpace. */
  function TrimSpace(s: string): (r: string)
    ensures r != [] ==> !IsSpace(r[0]) && !IsSpace(r[|r| - 1])
    ensures |r| <= |s|
  {
    var l := TrimLeftSpace(s);
    var r := TrimRightSpace(l);
    assert r != [] ==> r[0] == l[0];
    r
  }

  /** strings.TrimLeft(s, " "): leading ' ' characters removed. */
  function TrimLeftBlanks(s: string): (r: string)
    ensures |r| <= |s| && r == s[|s| - |r|..]
    ensures r != [] ==> r[0] != ' '
    ensures forall i :: 0 <= i < |s| - |r| ==> s[i] == ' '
    decreases |s|
  {
    if s != [] && s[0] == ' ' then
      var r := TrimLeftBlanks(s[1..]);
      assert forall i :: 1 <= i < |s| - |r| ==> s[i] == s[1..][i - 1];
      r
    else s
  }

  /** strings.ReplaceAll(s, [from], [to]) for single characters. */
  function ReplaceChar(s: string, from: char, to: char): (r: string)
    ensures |r| == |s|
    ensures forall i :: 0 <= i < |s| ==> r[i] == (if s[i] == from then to else s[i])
  {
    seq(|s|, i requires 0 <= i < |s| => if s[i] == from then to else s[i])
  }
}
