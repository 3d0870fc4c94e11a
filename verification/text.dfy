/**
 * The Python 2 `str` operations the generator relies on: strip, find, split, join,
 * replace, clamped slicing, and the `os.path` / `urllib` helpers applied to file names.
 */
module Text {

  /** Characters `str.strip()` removes from a Python 2 byte string. */
  predicate IsSpace(c: char) {
    c == ' ' || c == '\t' || c == '\n' || c == '\r' || c == '\U{000B}' || c == '\U{000C}'
  }

  predicate AllSpace(s: string) {
    forall k :: 0 <= k < |s| ==> IsSpace(s[k])
  }

  function StripLeft(s: string): (r: string)
    ensures |r| <= |s| && r == s[|s| - |r|..]
    ensures r == [] || !IsSpace(r[0])
    ensures AllSpace(s[..|s| - |r|])
  {
    if |s| > 0 && IsSpace(s[0]) then StripLeft(s[1..]) else s
  }

  function StripRight(s: string): (r: string)
    ensures |r| <= |s| && r == s[..|r|]
    ensures r == [] || !IsSpace(r[|r| - 1])
    ensures AllSpace(s[|r|..])
  {
    if |s| > 0 && IsSpace(s[|s| - 1]) then
      var r := StripRight(s[..|s| - 1]);
      assert s[|r|..] == s[..|s| - 1][|r|..] + [s[|s| - 1]];
      r
    else s
  }

  /** `s.strip()`. */
  function Strip(s: string): string {
    StripRight(StripLeft(s))
  }

  /** `s.strip() == ''` holds exactly for the all-whitespace strings. */
  lemma StripEmptyIffAllSpace(s: string)
    ensures Strip(s) == [] <==> AllSpace(s)
  {
    if AllSpace(s) {
      StripLeftAllSpace(s);
    } else {
      var l := StripLeft(s);
      assert s[..|s|] == s;   // so l is not empty, and l[0] is not a space
      assert l[0..] == l;     // so StripRight keeps at least l[0]
    }
  }

  /** A string with no whitespace at either end survives `strip()` unchanged. */
  predicate Stripped(s: string) {
    s == [] || (!IsSpace(s[0]) && !IsSpace(s[|s| - 1]))
  }

  lemma StripOfStripped(s: string, tail: string)
    requires Stripped(s) && AllSpace(tail)
    ensures Strip(s + tail) == s
  {
    if s == [] {
      assert StripLeft(tail) == [] by { StripLeftAllSpace(tail); }
    } else {
      assert StripLeft(s + tail) == s + tail;
      StripRightSpaceTail(s, tail);
    }
  }

  lemma StripLeftAllSpace(s: string)
    requires AllSpace(s)
    ensures StripLeft(s) == []
  {
  }

  lemma StripRightSpaceTail(s: string, tail: string)
    requires s != [] && !IsSpace(s[|s| - 1]) && AllSpace(tail)
    ensures StripRight(s + tail) == s
    decreases |tail|
  {
    if tail == [] {
      assert s + tail == s;
    } else {
      var t' := tail[..|tail| - 1];
      assert (s + tail)[..|s + tail| - 1] == s + t';
      StripRightSpaceTail(s, t');
    }
  }

  predicate StartsWith(s: string, prefix: string) {
    |prefix| <= |s| && s[..|prefix|] == prefix
  }

  predicate EndsWith(s: string, suffix: string) {
    |suffix| <= |s| && s[|s| - |suffix|..] == suffix
  }

  /** `sub` occurs in `s` starting at index `i`. */
  predicate OccursAt(s: string, sub: string, i: int) {
    0 <= i && i + |sub| <= |s| && s[i..i + |sub|] == sub
  }

  predicate NoOccurrence(s: string, sub: string) {
    forall i :: 0 <= i <= |s| - |sub| ==> !OccursAt(s, sub, i)
  }

  /** An occurrence in a suffix is an occurrence in the whole, shifted by where the suffix starts. */
  lemma OccursInSuffix(s: string, sub: string, k: int, j: int)
    requires 0 <= k <= |s| && 0 <= j
    ensures OccursAt(s[k..], sub, j) <==> OccursAt(s, sub, k + j)
  {
    if j + |sub| <= |s| - k {
      assert s[k..][j..j + |sub|] == s[k + j..k + j + |sub|];
    }
  }

  /** `s.find(sub)`: the first index where `sub` occurs, or -1. */
  function Find(s: string, sub: string): (r: int)
    requires |sub| > 0
    ensures r == -1 || 0 <= r <= |s| - |sub|
    ensures r == -1 <==> NoOccurrence(s, sub)
    ensures r >= 0 ==> OccursAt(s, sub, r) && forall i :: 0 <= i < r ==> !OccursAt(s, sub, i)
    decreases |s|
  {
    if |s| < |sub| then -1
    else if s[..|sub|] == sub then
      assert OccursAt(s, sub, 0);
      0
    else
      var j := Find(s[1..], sub);
      ShiftOccurrence(s, sub);
      assert !OccursAt(s, sub, 0);
      if j < 0 then -1
      else
        assert OccursAt(s, sub, j + 1);
        j + 1
  }

  /** The first occurrence is where `sub` occurs with no occurrence before it. */
  lemma FindIs(s: string, sub: string, i: int)
    requires |sub| > 0 && OccursAt(s, sub, i)
    requires forall j :: 0 <= j < i ==> !OccursAt(s, sub, j)
    ensures Find(s, sub) == i
  {
    var r := Find(s, sub);
    assert !NoOccurrence(s, sub) by { assert i <= |s| - |sub|; }
    assert r < i ==> !OccursAt(s, sub, r);
    assert r > i ==> !OccursAt(s, sub, i);
  }

  /** An occurrence at `i >= 1` in `s` is an occurrence at `i - 1` in `s[1..]`. */
  lemma ShiftOccurrence(s: string, sub: string)
    requires |s| > 0
    ensures forall i {:trigger OccursAt(s, sub, i)} :: 1 <= i ==> (OccursAt(s, sub, i) <==> OccursAt(s[1..], sub, i - 1))
  {
    forall i | 1 <= i ensures OccursAt(s, sub, i) <==> OccursAt(s[1..], sub, i - 1) {
      if i + |sub| <= |s| {
        var u, v := s[i..i + |sub|], s[1..][i - 1..i - 1 + |sub|];
        forall k | 0 <= k < |sub| ensures u[k] == v[k] {
          assert v[k] == s[1..][i - 1 + k] == s[i + k];
        }
        assert u == v;
      }
    }
  }

  /** A pattern whose first character does not recur occurs in `base + pat` first at the end. */
  lemma FirstAtEnd(base: string, pat: string)
    requires |pat| > 0 && pat[0] !in pat[1..] && NoOccurrence(base, pat)
    ensures forall j :: 0 <= j < |base| ==> !OccursAt(base + pat, pat, j)
  {
    var s := base + pat;
    forall j | 0 <= j < |base| ensures !OccursAt(s, pat, j) {
      if j + |pat| <= |base| {
        assert s[j..j + |pat|] == base[j..j + |pat|];
        assert !OccursAt(base, pat, j);
      } else {
        var d := |base| - j;
        assert s[j..j + |pat|][d] == s[|base|] == pat[0];
        assert pat[1..][d - 1] == pat[d];
      }
    }
  }

  /** So `(base + pat + tail).find(pat)` is `len(base)`, whatever follows. */
  lemma FindFirstAt(base: string, pat: string, tail: string)
    requires |pat| > 0 && pat[0] !in pat[1..] && NoOccurrence(base, pat)
    ensures Find(base + pat + tail, pat) == |base|
  {
    FirstAtEnd(base, pat);
    var s := base + pat + tail;
    assert OccursAt(s, pat, |base|) by { assert s[|base|..|base| + |pat|] == pat; }
    forall j | 0 <= j < |base| ensures !OccursAt(s, pat, j) {
      assert !OccursAt(base + pat, pat, j);
      assert (base + pat)[j..j + |pat|] == s[j..j + |pat|];
    }
    FindIs(s, pat, |base|);
  }

  predicate Contains(s: string, sub: string)
    requires |sub| > 0
  {
    Find(s, sub) >= 0
  }

  /** `s.split(sep)`: the pieces between non-overlapping occurrences, left to right. */
  function Split(s: string, sep: string): (r: seq<string>)
    requires |sep| > 0
    ensures |r| >= 1
    decreases |s|
  {
    if Find(s, sep) < 0 then [s] else [s[..Find(s, sep)]] + Split(s[Find(s, sep) + |sep|..], sep)
  }

  /** `sep.join(pieces)`. */
  function Join(pieces: seq<string>, sep: string): string {
    if |pieces| == 0 then ""
    else if |pieces| == 1 then pieces[0]
    else pieces[0] + sep + Join(pieces[1..], sep)
  }

  lemma SlicesAround(s: string, i: int, j: int)
    requires 0 <= i <= j <= |s|
    ensures s == s[..i] + s[i..j] + s[j..]
  {
  }

  lemma JoinCons(head: string, tail: seq<string>, sep: string)
    requires |tail| >= 1
    ensures Join([head] + tail, sep) == head + sep + Join(tail, sep)
  {
    assert ([head] + tail)[1..] == tail;
  }

  /** Splitting loses nothing: joining the pieces back gives the original text. */
  lemma {:induction false} JoinSplit(s: string, sep: string)
    requires |sep| > 0
    ensures Join(Split(s, sep), sep) == s
    decreases |s|
  {
    var i := Find(s, sep);
    if i >= 0 {
      var rest := s[i + |sep|..];
      JoinSplit(rest, sep);
      SplitFirst(s, sep);
      JoinCons(s[..i], Split(rest, sep), sep);
    } else {
      assert Split(s, sep) == [s];
    }
  }

  /** The first piece of a split, and the text that is split further. */
  lemma SplitFirst(s: string, sep: string)
    requires |sep| > 0 && Find(s, sep) >= 0
    ensures var i := Find(s, sep);
      && Split(s, sep) == [s[..i]] + Split(s[i + |sep|..], sep)
      && s == s[..i] + sep + s[i + |sep|..]
  {
    var i := Find(s, sep);
    SlicesAround(s, i, i + |sep|);
  }

  /** No piece of a split contains the separator. */
  lemma {:induction false} SplitPiecesLackSeparator(s: string, sep: string)
    requires |sep| > 0
    ensures forall k :: 0 <= k < |Split(s, sep)| ==> NoOccurrence(Split(s, sep)[k], sep)
    decreases |s|
  {
    var i := Find(s, sep);
    if i >= 0 {
      var rest := s[i + |sep|..];
      SplitPiecesLackSeparator(rest, sep);
      PrefixBeforeFirst(s, sep, i);
    }
  }

  /** The text before the first occurrence holds no occurrence. */
  lemma PrefixBeforeFirst(s: string, sep: string, i: int)
    requires |sep| > 0 && 0 <= i <= |s|
    requires forall j :: 0 <= j < i ==> !OccursAt(s, sep, j)
    ensures NoOccurrence(s[..i], sep)
  {
    forall j | 0 <= j <= i - |sep| ensures !OccursAt(s[..i], sep, j) {
      assert !OccursAt(s, sep, j);
      assert s[..i][j..j + |sep|] == s[j..j + |sep|];
    }
  }

  /** Splitting `a + sep + b`, where `sep` does not occur in `a + sep` before its end. */
  lemma {:induction false} SplitAtFirst(a: string, sep: string, b: string)
    requires |sep| > 0
    requires Find(a + sep, sep) == |a|
    ensures Split(a + sep + b, sep) == [a] + Split(b, sep)
  {
    var s := a + sep + b;
    assert OccursAt(s, sep, |a|) by { assert s[|a|..|a| + |sep|] == sep; }
    forall j | 0 <= j < |a| ensures !OccursAt(s, sep, j) {
      assert !OccursAt(a + sep, sep, j);
      assert (a + sep)[j..j + |sep|] == s[j..j + |sep|];
    }
    assert Find(s, sep) == |a|;
    assert s[..|a|] == a;
    assert s[|a| + |sep|..] == b;
  }

  /** `s.replace(pat, repl)`: every non-overlapping occurrence, left to right. */
  function Replace(s: string, pat: string, repl: string): string
    requires |pat| > 0
    decreases |s|
  {
    if |s| < |pat| then s
    else if s[..|pat|] == pat then repl + Replace(s[|pat|..], pat, repl)
    else [s[0]] + Replace(s[1..], pat, repl)
  }

  /** Replacing one character by another rewrites exactly those positions. */
  lemma {:induction false} ReplaceChar(s: string, c: char, d: char)
    ensures |Replace(s, [c], [d])| == |s|
    ensures forall k :: 0 <= k < |s| ==> Replace(s, [c], [d])[k] == if s[k] == c then d else s[k]
    decreases |s|
  {
    if |s| >= 1 {
      ReplaceChar(s[1..], c, d);
      if s[..1] == [c] {
        assert s[0] == c;
      } else {
        assert s[0] != c;
      }
    }
  }

  /** A text in which `pat` does not occur is left as it is. */
  lemma {:induction false} ReplaceAbsent(s: string, pat: string, repl: string)
    requires |pat| > 0 && NoOccurrence(s, pat)
    ensures Replace(s, pat, repl) == s
    decreases |s|
  {
    if |s| >= |pat| {
      assert !OccursAt(s, pat, 0);
      ShiftOccurrence(s, pat);
      forall i | 0 <= i <= |s| - 1 - |pat| ensures !OccursAt(s[1..], pat, i) {
        assert !OccursAt(s, pat, i + 1);
      }
      ReplaceAbsent(s[1..], pat, repl);
    }
  }

  /** Replacing in `a + b`, where no occurrence starts inside `a`, keeps `a` and rewrites `b`. */
  lemma {:induction false} ReplaceAfter(a: string, b: string, pat: string, repl: string)
    requires |pat| > 0 && forall j :: 0 <= j < |a| ==> !OccursAt(a + b, pat, j)
    ensures Replace(a + b, pat, repl) == a + Replace(b, pat, repl)
    decreases |a|
  {
    var s := a + b;
    if |a| == 0 {
      assert s == b;
    } else if |s| < |pat| {
      ReplaceShort(s, pat, repl);
      ReplaceShort(b, pat, repl);
    } else {
      assert !OccursAt(s, pat, 0);
      assert s[..|pat|] != pat;
      var t := a[1..] + b;
      assert s[1..] == t;
      NoOccurrenceAfterHead(a, b, pat);
      ReplaceAfter(a[1..], b, pat, repl);
      assert Replace(s, pat, repl) == [s[0]] + Replace(t, pat, repl);
      assert a == [a[0]] + a[1..];
    }
  }

  /** No occurrence starts inside `a` in `a + b`, so none starts inside `a[1..]` in `a[1..] + b`. */
  lemma NoOccurrenceAfterHead(a: string, b: string, pat: string)
    requires |a| > 0 && forall j :: 0 <= j < |a| ==> !OccursAt(a + b, pat, j)
    ensures forall j :: 0 <= j < |a| - 1 ==> !OccursAt(a[1..] + b, pat, j)
  {
    var s, t := a + b, a[1..] + b;
    assert s[1..] == t;
    forall j | 0 <= j < |a| - 1 ensures !OccursAt(t, pat, j) {
      assert !OccursAt(s, pat, j + 1);
      if j + |pat| <= |t| {
        assert t[j..j + |pat|] == s[1..][j..j + |pat|] == s[j + 1..j + 1 + |pat|];
      }
    }
  }

  lemma ReplaceShort(s: string, pat: string, repl: string)
    requires |pat| > 0 && |s| < |pat|
    ensures Replace(s, pat, repl) == s
  {
  }

  /** A text that starts with the pattern has its start rewritten. */
  lemma ReplaceAtStart(pat: string, b: string, repl: string)
    requires |pat| > 0
    ensures Replace(pat + b, pat, repl) == repl + Replace(b, pat, repl)
  {
    var s := pat + b;
    assert s[..|pat|] == pat && s[|pat|..] == b;
  }

  /** Python's `s[i:j]` for non-negative bounds: bounds beyond the end are clamped. */
  function Slice(s: string, i: nat, j: nat): (r: string)
    ensures |r| <= |s|
  {
    var hi := if j <= |s| then j else |s|;
    var lo := if i <= hi then i else hi;
    s[lo..hi]
  }

  /** Python's `s[i:]`. */
  function SliceFrom(s: string, i: nat): (r: string)
    ensures |r| <= |s|
  {
    if i <= |s| then s[i..] else ""
  }

  /** `s[:2] + s[2:4] + s[4:]` is `s` whatever the length of `s`. */
  lemma SlicesCover(s: string)
    ensures Slice(s, 0, 2) + Slice(s, 2, 4) + SliceFrom(s, 4) == s
  {
    if |s| >= 4 {
      assert s == s[0..2] + s[2..4] + s[4..];
    }
  }

  /** `s.rfind(c)`: the last index holding `c`, or -1. */
  function RFind(s: string, c: char): (r: int)
    ensures -1 <= r < |s|
    ensures r >= 0 ==> s[r] == c
    ensures forall k :: r < k < |s| ==> s[k] != c
  {
    if |s| == 0 then -1
    else if s[|s| - 1] == c then |s| - 1
    else RFind(s[..|s| - 1], c)
  }

  /** `os.path.basename(p)`: the text after the last `/`. */
  function Basename(p: string): (r: string)
    ensures EndsWith(p, r)
    ensures '/' !in r
  {
    p[RFind(p, '/') + 1..]
  }

  function StripTrailingSlashes(s: string): (r: string)
    ensures |r| <= |s| && r == s[..|r|]
    ensures r == [] || r[|r| - 1] != '/'
  {
    if |s| > 0 && s[|s| - 1] == '/' then StripTrailingSlashes(s[..|s| - 1]) else s
  }

  /**
   * `os.path.dirname(p)`: the text up to the last `/`, with its trailing slashes removed
   * unless it consists of slashes only.
   */
  function Dirname(p: string): (r: string)
    ensures r == [] <==> '/' !in p
    ensures StartsWith(p, r)
  {
    var head := p[..RFind(p, '/') + 1];
    if head == [] || forall k :: 0 <= k < |head| ==> head[k] == '/' then head
    else
      var r := StripTrailingSlashes(head);
      assert r != [] by {
        var k :| 0 <= k < |head| && head[k] != '/';
        NonSlashSurvives(head, k);
      }
      r
  }

  lemma NonSlashSurvives(s: string, k: int)
    requires 0 <= k < |s| && s[k] != '/'
    ensures k < |StripTrailingSlashes(s)|
  {
    if |s| > 0 && s[|s| - 1] == '/' {
      NonSlashSurvives(s[..|s| - 1], k);
    }
  }

  predicate IsHexDigit(c: char) {
    ('0' <= c <= '9') || ('a' <= c <= 'f') || ('A' <= c <= 'F')
  }

  function HexValue(c: char): (v: nat)
    requires IsHexDigit(c)
    ensures v < 16
  {
    if '0' <= c <= '9' then (c - '0') as nat
    else if 'a' <= c <= 'f' then (c - 'a') as nat + 10
    else (c - 'A') as nat + 10
  }

  /** Python 2 `urllib.unquote`: each `%XX` with two hex digits becomes that byte. */
  function Unquote(s: string): (r: string)
    ensures |r| <= |s|
    decreases |s|
  {
    if |s| == 0 then ""
    else if s[0] == '%' && |s| >= 3 && IsHexDigit(s[1]) && IsHexDigit(s[2]) then
      [(HexValue(s[1]) * 16 + HexValue(s[2])) as char] + Unquote(s[3..])
    else [s[0]] + Unquote(s[1..])
  }

  /** Text without `%` is not changed by unquoting. */
  lemma {:induction false} UnquotePlain(s: string)
    requires '%' !in s
    ensures Unquote(s) == s
    decreases |s|
  {
    if |s| > 0 {
      assert '%' !in s[1..] by { assert forall k :: 0 <= k < |s| - 1 ==> s[1..][k] == s[k + 1]; }
      UnquotePlain(s[1..]);
    }
  }

  /** `"".join(pieces)`. */
  function Concat(pieces: seq<string>): string {
    if |pieces| == 0 then "" else pieces[0] + Concat(pieces[1..])
  }

  /** A line of a file: not empty, and a newline only at its end. */
  predicate IsLine(l: string) {
    |l| > 0 && forall k :: 0 <= k < |l| - 1 ==> l[k] != '\n'
  }

  /** The length of the first line of `s`, its newline included. */
  function LineLength(s: string): (n: nat)
    ensures n <= |s| && (|s| > 0 ==> n > 0)
    ensures forall k :: 0 <= k < n - 1 ==> s[k] != '\n'
    ensures 0 < n < |s| ==> s[n - 1] == '\n'
    decreases |s|
  {
    if |s| == 0 then 0 else if s[0] == '\n' then 1 else 1 + LineLength(s[1..])
  }

  /**
   * Iterating over an open file: its lines, each keeping the newline that ends it; only the
   * last may lack one. Nothing is lost: the lines put together give back the text.
   */
  function Lines(s: string): (r: seq<string>)
    ensures Concat(r) == s
    ensures forall k :: 0 <= k < |r| ==> IsLine(r[k])
    ensures forall k :: 0 <= k < |r| - 1 ==> |r[k]| > 0 && r[k][|r[k]| - 1] == '\n'
    decreases |s|
  {
    if |s| == 0 then []
    else
      var n := LineLength(s);
      var rest := Lines(s[n..]);
      assert s == s[..n] + s[n..];
      LinesCons(s[..n], rest);
      [s[..n]] + rest
  }

  /** A line in front of lines keeps them lines, provided it ends in a newline when more follow. */
  lemma LinesCons(l: string, rest: seq<string>)
    requires IsLine(l) && (|rest| > 0 ==> l[|l| - 1] == '\n')
    requires forall k :: 0 <= k < |rest| ==> IsLine(rest[k])
    requires forall k :: 0 <= k < |rest| - 1 ==> |rest[k]| > 0 && rest[k][|rest[k]| - 1] == '\n'
    ensures Concat([l] + rest) == l + Concat(rest)
    ensures forall k :: 0 <= k < |[l] + rest| ==> IsLine(([l] + rest)[k])
    ensures forall k :: 0 <= k < |[l] + rest| - 1 ==> |([l] + rest)[k]| > 0 && ([l] + rest)[k][|([l] + rest)[k]| - 1] == '\n'
  {
    assert ([l] + rest)[1..] == rest;
  }

  /** A line that ends in a newline is the whole first line of any text it starts. */
  lemma {:induction false} LineLengthOf(l: string, t: string)
    requires IsLine(l) && l[|l| - 1] == '\n'
    ensures LineLength(l + t) == |l|
    decreases |l|
  {
    if |l| > 1 {
      assert (l + t)[1..] == l[1..] + t;
      LineLengthOf(l[1..], t);
    }
  }

  /** Text written as whole lines reads back as those lines. */
  lemma {:induction false} LinesOfConcat(ls: seq<string>)
    requires forall k :: 0 <= k < |ls| ==> IsLine(ls[k]) && ls[k][|ls[k]| - 1] == '\n'
    ensures Lines(Concat(ls)) == ls
    decreases |ls|
  {
    if |ls| > 0 {
      var s := Concat(ls);
      LineLengthOf(ls[0], Concat(ls[1..]));
      assert s[..|ls[0]|] == ls[0] && s[|ls[0]|..] == Concat(ls[1..]);
      LinesOfConcat(ls[1..]);
      assert ls == [ls[0]] + ls[1..];
    }
  }
}
