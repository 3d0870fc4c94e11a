/**
 * Ninja variable references in rule text: `vars_in` (which names a rule needs) and the
 * `$name` / `${name}` substitution used when a rule's outputs and inputs are instantiated.
 */
module NinjaVars {
  import opened Text

  /** `\w` of Python 2's `re` on byte strings. */
  predicate IsWordChar(c: char) {
    ('a' <= c <= 'z') || ('A' <= c <= 'Z') || ('0' <= c <= '9') || c == '_'
  }

  /** A match of `\w+`. */
  predicate IsWord(w: string) {
    |w| > 0 && forall k :: 0 <= k < |w| ==> IsWordChar(w[k])
  }

  /** Length of the longest prefix of `s` made of word characters. */
  function WordRun(s: string): (n: nat)
    ensures n <= |s|
    ensures forall k :: 0 <= k < n ==> IsWordChar(s[k])
    ensures n == |s| || !IsWordChar(s[n])
  {
    if |s| > 0 && IsWordChar(s[0]) then 1 + WordRun(s[1..]) else 0
  }

  /** `$w` stands at index `i` of `x`, and the name is not continued by another word character. */
  ghost predicate DollarRefAt(x: string, i: int, w: string) {
    0 <= i && i + 1 + |w| <= |x| && x[i] == '$' && x[i + 1..i + 1 + |w|] == w && IsWord(w)
    && (i + 1 + |w| == |x| || !IsWordChar(x[i + 1 + |w|]))
  }

  /** `${w}` stands at index `i` of `x`. */
  ghost predicate BracedRefAt(x: string, i: int, w: string) {
    0 <= i && i + 3 + |w| <= |x| && x[i] == '$' && x[i + 1] == '{'
    && x[i + 2..i + 2 + |w|] == w && IsWord(w) && x[i + 2 + |w|] == '}'
  }

  /**
   * `re.findall(r"\$(\w+)", x)`. A name is a maximal run of word characters, so no match can
   * start inside one: moving on by one character finds the same matches as the regex scan.
   */
  function FindDollar(x: string): seq<string> {
    if |x| == 0 then []
    else (if x[0] == '$' && WordRun(x[1..]) > 0 then [x[1..1 + WordRun(x[1..])]] else []) + FindDollar(x[1..])
  }

  /** `re.findall(r"\${(\w+)}", x)`. */
  function FindBraced(x: string): seq<string> {
    if |x| == 0 then []
    else
      (if |x| >= 2 && x[0] == '$' && x[1] == '{' && WordRun(x[2..]) > 0
          && 2 + WordRun(x[2..]) < |x| && x[2 + WordRun(x[2..])] == '}'
       then [x[2..2 + WordRun(x[2..])]] else [])
      + FindBraced(x[1..])
  }

  lemma ShiftDollarRef(x: string, i: int, w: string)
    requires |x| > 0 && 0 <= i
    ensures DollarRefAt(x, i + 1, w) <==> DollarRefAt(x[1..], i, w)
  {
    if i + 2 + |w| <= |x| {
      assert x[i + 2..i + 2 + |w|] == x[1..][i + 1..i + 1 + |w|];
    }
  }

  lemma ShiftBracedRef(x: string, i: int, w: string)
    requires |x| > 0 && 0 <= i
    ensures BracedRefAt(x, i + 1, w) <==> BracedRefAt(x[1..], i, w)
  {
    if i + 4 + |w| <= |x| {
      assert x[i + 3..i + 3 + |w|] == x[1..][i + 2..i + 2 + |w|];
    }
  }

  /** The maximal run of word characters has one length only. */
  lemma WordRunUnique(s: string, m: nat)
    requires m <= |s| && (forall k :: 0 <= k < m ==> IsWordChar(s[k]))
    requires m == |s| || !IsWordChar(s[m])
    ensures WordRun(s) == m
    decreases m
  {
    if m > 0 {
      assert forall k :: 0 <= k < m - 1 ==> s[1..][k] == s[k + 1];
      assert m < |s| ==> s[1..][m - 1] == s[m];
      WordRunUnique(s[1..], m - 1);
    }
  }

  /** A reference at the start of `x` is the one the scan takes there. */
  lemma DollarRefAtStart(x: string, w: string)
    requires |x| > 0
    ensures DollarRefAt(x, 0, w) <==> (x[0] == '$' && WordRun(x[1..]) > 0 && w == x[1..1 + WordRun(x[1..])])
  {
    var y := x[1..];
    if DollarRefAt(x, 0, w) {
      assert forall k :: 0 <= k < |w| ==> y[k] == w[k];
      assert |w| < |y| ==> y[|w|] == x[1 + |w|];
      WordRunUnique(y, |w|);
    }
    var n := WordRun(y);
    assert 1 + n < |x| ==> y[n] == x[1 + n];
  }

  lemma BracedRefAtStart(x: string, w: string)
    requires |x| > 0
    ensures BracedRefAt(x, 0, w) <==>
      (|x| >= 2 && x[0] == '$' && x[1] == '{' && WordRun(x[2..]) > 0
       && 2 + WordRun(x[2..]) < |x| && x[2 + WordRun(x[2..])] == '}' && w == x[2..2 + WordRun(x[2..])])
  {
    if BracedRefAt(x, 0, w) {
      var y := x[2..];
      assert forall k :: 0 <= k < |w| ==> y[k] == w[k];
      assert y[|w|] == x[2 + |w|];
      WordRunUnique(y, |w|);
    }
  }

  /** The `$name` scan finds exactly the names that appear as a complete `$name` reference. */
  lemma {:induction false} FindDollarFindsReferences(x: string, w: string)
    ensures w in FindDollar(x) <==> exists i :: DollarRefAt(x, i, w)
    decreases |x|
  {
    if |x| > 0 {
      FindDollarFindsReferences(x[1..], w);
      DollarRefAtStart(x, w);
      if w in FindDollar(x[1..]) {
        var i :| DollarRefAt(x[1..], i, w);
        ShiftDollarRef(x, i, w);
      }
      if i :| DollarRefAt(x, i, w) {
        if i > 0 {
          ShiftDollarRef(x, i - 1, w);
        }
      }
    }
  }

  /** The `${name}` scan finds exactly the names that appear as a `${name}` reference. */
  lemma {:induction false} FindBracedFindsReferences(x: string, w: string)
    ensures w in FindBraced(x) <==> exists i :: BracedRefAt(x, i, w)
    decreases |x|
  {
    if |x| > 0 {
      FindBracedFindsReferences(x[1..], w);
      BracedRefAtStart(x, w);
      if w in FindBraced(x[1..]) {
        var i :| BracedRefAt(x[1..], i, w);
        ShiftBracedRef(x, i, w);
      }
      if i :| BracedRefAt(x, i, w) {
        if i > 0 {
          ShiftBracedRef(x, i - 1, w);
        }
      }
    }
  }

  /** The names found in one piece of text between `$$` escapes. */
  function PieceNames(x: string): seq<string> {
    FindDollar(x) + FindBraced(x)
  }

  function PiecesNames(pieces: seq<string>): seq<string> {
    if |pieces| == 0 then [] else PieceNames(pieces[0]) + PiecesNames(pieces[1..])
  }

  /** The names referenced by one text, in order: the text is first cut at every `$$`. */
  function TextNames(text: string): seq<string> {
    PiecesNames(Split(text, "$$"))
  }

  function TextsNames(texts: seq<string>): seq<string> {
    if |texts| == 0 then [] else TextNames(texts[0]) + TextsNames(texts[1..])
  }

  function Elements(xs: seq<string>): set<string> {
    set x | x in xs
  }

  /** The argument of `vars_in`: `None`, a single string, or a list of strings. */
  datatype Items = NoItems | OneText(text: string) | Texts(texts: seq<string>)

  function ItemTexts(items: Items): seq<string> {
    match items
    case NoItems => []
    case OneText(t) => [t]
    case Texts(ts) => ts
  }

  /** What `vars_in(items)` returns. */
  function VarsOf(items: Items): set<string> {
    Elements(TextsNames(ItemTexts(items)))
  }

  lemma ElementsConcat(a: seq<string>, b: seq<string>)
    ensures Elements(a + b) == Elements(a) + Elements(b)
  {
  }

  /**
   * `vars_in`: collects, piece by piece of every text cut at `$$`, the names of the
   * `$name` and `${name}` references.
   */
  method VarsIn(items: Items) returns (out: set<string>)
    ensures out == VarsOf(items)
    ensures items.NoItems? ==> out == {}
  {
    var texts := ItemTexts(items);
    out := {};
    var t := 0;
    while t < |texts|
      invariant 0 <= t <= |texts|
      invariant out + Elements(TextsNames(texts[t..])) == VarsOf(items)
    {
      var pieces := Split(texts[t], "$$");
      var p := 0;
      ghost var later := Elements(TextsNames(texts[t + 1..]));
      TextsStep(texts, t);
      while p < |pieces|
        invariant 0 <= p <= |pieces|
        invariant out + Elements(PiecesNames(pieces[p..])) + later == VarsOf(items)
      {
        ghost var dollar, braced, rest := Elements(FindDollar(pieces[p])), Elements(FindBraced(pieces[p])),
                                          Elements(PiecesNames(pieces[p + 1..]));
        PiecesStep(pieces, p);
        UnionRegroup(out, dollar, braced, rest, later);
        out := out + Elements(FindDollar(pieces[p]));
        out := out + Elements(FindBraced(pieces[p]));
        p := p + 1;
      }
      NothingLeft(pieces);
      t := t + 1;
    }
    NothingLeft([]);
    assert texts[|texts|..] == [];
  }

  /** The names of the texts from `t` on: those of text `t`, then those of the rest. */
  lemma TextsStep(texts: seq<string>, t: int)
    requires 0 <= t < |texts|
    ensures Elements(TextsNames(texts[t..])) == Elements(PiecesNames(Split(texts[t], "$$"))) + Elements(TextsNames(texts[t + 1..]))
  {
    assert texts[t..][1..] == texts[t + 1..];
    ElementsConcat(TextNames(texts[t]), TextsNames(texts[t + 1..]));
  }

  /** The names of the pieces from `p` on: those after one `$`, those in braces, then the rest. */
  lemma PiecesStep(pieces: seq<string>, p: int)
    requires 0 <= p < |pieces|
    ensures Elements(PiecesNames(pieces[p..]))
         == Elements(FindDollar(pieces[p])) + Elements(FindBraced(pieces[p])) + Elements(PiecesNames(pieces[p + 1..]))
  {
    assert pieces[p..][1..] == pieces[p + 1..];
    ElementsConcat(PieceNames(pieces[p]), PiecesNames(pieces[p + 1..]));
    ElementsConcat(FindDollar(pieces[p]), FindBraced(pieces[p]));
  }

  /** Past the end there are no names left. */
  lemma NothingLeft(xs: seq<string>)
    ensures Elements(PiecesNames(xs[|xs|..])) == {} && Elements(TextsNames(xs[|xs|..])) == {}
  {
    assert xs[|xs|..] == [];
  }

  lemma UnionRegroup<T>(out: set<T>, a: set<T>, b: set<T>, c: set<T>, d: set<T>)
    ensures out + (a + b + c) + d == (out + a + b) + c + d
  {
  }

  lemma {:induction false} PiecesNamesMember(pieces: seq<string>, w: string)
    ensures w in PiecesNames(pieces) <==>
      exists k :: 0 <= k < |pieces| && (w in FindDollar(pieces[k]) || w in FindBraced(pieces[k]))
    decreases |pieces|
  {
    if |pieces| > 0 {
      PiecesNamesMember(pieces[1..], w);
      if exists k :: 0 <= k < |pieces| && (w in FindDollar(pieces[k]) || w in FindBraced(pieces[k])) {
        var k :| 0 <= k < |pieces| && (w in FindDollar(pieces[k]) || w in FindBraced(pieces[k]));
        assert k > 0 ==> pieces[1..][k - 1] == pieces[k];
      }
    }
  }

  /**
   * A name is found in a sequence of `$$`-free pieces iff some piece holds `$name` or
   * `${name}`; `TextNames` applies this to the pieces of a text cut at `$$`.
   */
  lemma PiecesVariables(pieces: seq<string>, w: string)
    ensures w in PiecesNames(pieces) <==>
      exists k, i :: 0 <= k < |pieces| && (DollarRefAt(pieces[k], i, w) || BracedRefAt(pieces[k], i, w))
  {
    PiecesNamesMember(pieces, w);
    if w in PiecesNames(pieces) {
      var k :| 0 <= k < |pieces| && (w in FindDollar(pieces[k]) || w in FindBraced(pieces[k]));
      FindDollarFindsReferences(pieces[k], w);
      FindBracedFindsReferences(pieces[k], w);
      if w in FindDollar(pieces[k]) {
        var i :| DollarRefAt(pieces[k], i, w);
        assert 0 <= k < |pieces| && DollarRefAt(pieces[k], i, w);
      } else {
        var i :| BracedRefAt(pieces[k], i, w);
        assert 0 <= k < |pieces| && BracedRefAt(pieces[k], i, w);
      }
    }
    if exists k, i :: 0 <= k < |pieces| && (DollarRefAt(pieces[k], i, w) || BracedRefAt(pieces[k], i, w)) {
      var k, i :| 0 <= k < |pieces| && (DollarRefAt(pieces[k], i, w) || BracedRefAt(pieces[k], i, w));
      FindDollarFindsReferences(pieces[k], w);
      FindBracedFindsReferences(pieces[k], w);
    }
  }

  lemma NoDollarNoNames(x: string)
    requires '$' !in x
    ensures FindDollar(x) == [] && FindBraced(x) == []
  {
    if |x| > 0 {
      assert '$' !in x[1..] by { assert forall k :: 0 <= k < |x| - 1 ==> x[1..][k] == x[k + 1]; }
      NoDollarNoNames(x[1..]);
    }
  }

  lemma NoDollarNoDoubleDollar(x: string)
    requires '$' !in x
    ensures Find(x + "$$", "$$") == |x|
  {
    var s := x + "$$";
    forall i | 0 <= i < |x| ensures !OccursAt(s, "$$", i) {
      assert s[i..i + 2][0] == s[i] == x[i];
    }
    assert OccursAt(s, "$$", |x|) by { assert s[|x|..|x| + 2] == "$$"; }
    FindIs(s, "$$", |x|);
  }

  /**
   * An escaped `$$` ends a piece: what follows it is scanned on its own, so `$$name` never
   * makes `name` a variable by itself.
   */
  lemma EscapeSeparatesPieces(a: string, b: string)
    requires '$' !in a
    ensures Elements(TextNames(a + "$$" + b)) == Elements(TextNames(b))
  {
    NoDollarNoDoubleDollar(a);
    SplitAtFirst(a, "$$", b);
    NoDollarNoNames(a);
    assert PiecesNames([a] + Split(b, "$$")) == PieceNames(a) + PiecesNames(Split(b, "$$")) by {
      assert ([a] + Split(b, "$$"))[1..] == Split(b, "$$");
    }
  }

  /** A leading `$$` changes nothing: the text after it is scanned exactly as on its own. */
  lemma EscapedPrefix(text: string)
    ensures VarsOf(OneText("$$" + text)) == VarsOf(OneText(text))
  {
    EscapeSeparatesPieces("", text);
    assert "" + "$$" + text == "$$" + text;
    assert TextsNames(["$$" + text]) == TextNames("$$" + text) + TextsNames([]);
    assert TextsNames([text]) == TextNames(text) + TextsNames([]);
  }

  /** In particular `$$name` with a plain name references no variable at all. */
  lemma EscapedNameIsNotAVariable(name: string)
    requires '$' !in name
    ensures VarsOf(OneText("$$" + name)) == {}
  {
    EscapedPrefix(name);
    PlainTextNoNames(name);
    assert TextsNames([name]) == TextNames(name) + TextsNames([]);
  }

  lemma {:induction false} TextsNamesMember(texts: seq<string>, w: string)
    ensures w in TextsNames(texts) <==> exists t :: 0 <= t < |texts| && w in TextNames(texts[t])
    decreases |texts|
  {
    if |texts| > 0 {
      TextsNamesMember(texts[1..], w);
      if exists t :: 0 <= t < |texts| && w in TextNames(texts[t]) {
        var t :| 0 <= t < |texts| && w in TextNames(texts[t]);
        assert t > 0 ==> texts[1..][t - 1] == texts[t];
      }
    }
  }

  /**
   * The partner of `vars_in`: a name is one of its variables iff some text holds, in one of
   * the pieces it is cut into at `$$`, a `$name` or a `${name}` reference.
   */
  lemma VarsOfReferences(items: Items, w: string)
    ensures w in VarsOf(items) <==>
      exists t, k, i :: 0 <= t < |ItemTexts(items)| && 0 <= k < |Split(ItemTexts(items)[t], "$$")|
        && (DollarRefAt(Split(ItemTexts(items)[t], "$$")[k], i, w) || BracedRefAt(Split(ItemTexts(items)[t], "$$")[k], i, w))
  {
    var texts := ItemTexts(items);
    TextsNamesMember(texts, w);
    assert w in VarsOf(items) <==> w in TextsNames(texts);
    if w in VarsOf(items) {
      var t :| 0 <= t < |texts| && w in TextNames(texts[t]);
      PiecesVariables(Split(texts[t], "$$"), w);
      var k, i :| 0 <= k < |Split(texts[t], "$$")|
        && (DollarRefAt(Split(texts[t], "$$")[k], i, w) || BracedRefAt(Split(texts[t], "$$")[k], i, w));
      assert 0 <= t < |texts| && 0 <= k < |Split(texts[t], "$$")|
        && (DollarRefAt(Split(texts[t], "$$")[k], i, w) || BracedRefAt(Split(texts[t], "$$")[k], i, w));
    }
    if exists t, k, i :: 0 <= t < |texts| && 0 <= k < |Split(texts[t], "$$")|
        && (DollarRefAt(Split(texts[t], "$$")[k], i, w) || BracedRefAt(Split(texts[t], "$$")[k], i, w)) {
      var t, k, i :| 0 <= t < |texts| && 0 <= k < |Split(texts[t], "$$")|
        && (DollarRefAt(Split(texts[t], "$$")[k], i, w) || BracedRefAt(Split(texts[t], "$$")[k], i, w));
      PiecesVariables(Split(texts[t], "$$"), w);
      assert w in TextNames(texts[t]);
    }
  }

  /** A text without `$` references no variable. */
  lemma PlainTextNoNames(x: string)
    requires '$' !in x
    ensures TextNames(x) == []
  {
    NoDoubleDollarSplit(x);
    NoDollarNoNames(x);
    assert PiecesNames([x]) == PieceNames(x) + PiecesNames([]);
  }

  /** No value of the map holds a `$`. */
  predicate DollarFree(m: map<string, string>) {
    forall n :: n in m ==> '$' !in m[n]
  }

  /** Value of a variable during expansion: the build's own bindings shadow the globals. */
  function Lookup(name: string, globals: map<string, string>, locals: map<string, string>): string {
    if name in locals then locals[name] else if name in globals then globals[name] else ""
  }

  /**
   * Substitution of `$$`, `$name` and `${name}` in a rule's output or input path; an unknown
   * name and a lone `$` expand to nothing.
   */
  function Expand(s: string, globals: map<string, string>, locals: map<string, string>): (r: string)
    ensures NoDoubleDollar(s) && DollarFree(globals) && DollarFree(locals) ==> '$' !in r
    decreases |s|
  {
    if |s| == 0 then ""
    else if s[0] != '$' then [s[0]] + Expand(s[1..], globals, locals)
    else if |s| >= 2 && s[1] == '$' then "$" + Expand(s[2..], globals, locals)
    else if WordRun(s[1..]) > 0 then
      Lookup(s[1..1 + WordRun(s[1..])], globals, locals) + Expand(s[1 + WordRun(s[1..])..], globals, locals)
    else if |s| >= 2 && s[1] == '{' && WordRun(s[2..]) > 0 && 2 + WordRun(s[2..]) < |s| && s[2 + WordRun(s[2..])] == '}' then
      Lookup(s[2..2 + WordRun(s[2..])], globals, locals) + Expand(s[3 + WordRun(s[2..])..], globals, locals)
    else Expand(s[1..], globals, locals)
  }

  function ExpandAll(xs: seq<string>, globals: map<string, string>, locals: map<string, string>): (r: seq<string>)
    ensures |r| == |xs|
    ensures forall k :: 0 <= k < |xs| ==> r[k] == Expand(xs[k], globals, locals)
  {
    if |xs| == 0 then [] else [Expand(xs[0], globals, locals)] + ExpandAll(xs[1..], globals, locals)
  }

  // ---------------------------------------------------------------------------------------
  // Templates: rule paths written as literal text and `$name` references.

  datatype Part = Lit(text: string) | Ref(name: string)

  function RenderPart(p: Part): string {
    match p
    case Lit(t) => t
    case Ref(n) => "$" + n
  }

  /** The text of a template. */
  function Render(parts: seq<Part>): string {
    if |parts| == 0 then "" else RenderPart(parts[0]) + Render(parts[1..])
  }

  /**
   * Literals hold no `$` and no `{`, names are words, and a reference is never directly
   * followed by a literal that would extend its name.
   */
  ghost predicate WellFormed(parts: seq<Part>) {
    && (forall k :: 0 <= k < |parts| && parts[k].Lit? ==> |parts[k].text| > 0 && '$' !in parts[k].text && '{' !in parts[k].text)
    && (forall k :: 0 <= k < |parts| && parts[k].Ref? ==> IsWord(parts[k].name))
    && (forall k :: 0 <= k < |parts| - 1 && parts[k].Ref? && parts[k + 1].Lit? ==> !IsWordChar(parts[k + 1].text[0]))
  }

  /** The names a template references, in order. */
  function RefNames(parts: seq<Part>): seq<string> {
    if |parts| == 0 then []
    else (if parts[0].Ref? then [parts[0].name] else []) + RefNames(parts[1..])
  }

  /** What a template expands to: each reference replaced by its value. */
  function Substitute(parts: seq<Part>, globals: map<string, string>, locals: map<string, string>): string {
    if |parts| == 0 then ""
    else
      (match parts[0] case Lit(t) => t case Ref(n) => Lookup(n, globals, locals))
      + Substitute(parts[1..], globals, locals)
  }

  lemma WellFormedTail(parts: seq<Part>)
    requires |parts| > 0 && WellFormed(parts)
    ensures WellFormed(parts[1..])
  {
    forall k | 0 <= k < |parts| - 2 && parts[1..][k].Ref? && parts[1..][k + 1].Lit?
      ensures !IsWordChar(parts[1..][k + 1].text[0])
    {
      assert parts[1..][k] == parts[k + 1] && parts[1..][k + 1] == parts[k + 2];
    }
  }

  /** A rendered well-formed template never starts with a word character after a reference. */
  lemma RenderStart(parts: seq<Part>)
    requires |parts| > 0 && WellFormed(parts)
    ensures |Render(parts)| > 0
    ensures parts[0].Ref? ==> Render(parts)[0] == '$'
    ensures parts[0].Lit? ==> Render(parts)[0] == parts[0].text[0]
  {
  }

  lemma FindDollarAfterPlainText(a: string, b: string)
    requires '$' !in a
    ensures FindDollar(a + b) == FindDollar(b) && FindBraced(a + b) == FindBraced(b)
    decreases |a|
  {
    if |a| > 0 {
      assert (a + b)[1..] == a[1..] + b;
      assert '$' !in a[1..] by { assert forall k :: 0 <= k < |a| - 1 ==> a[1..][k] == a[k + 1]; }
      FindDollarAfterPlainText(a[1..], b);
    } else {
      assert a + b == b;
    }
  }

  lemma FindAfterReference(n: string, b: string)
    requires IsWord(n) && (b == [] || !IsWordChar(b[0]))
    ensures FindDollar("$" + n + b) == [n] + FindDollar(b)
    ensures FindBraced("$" + n + b) == FindBraced(b)
  {
    var x := "$" + n + b;
    assert x[1..] == n + b;
    WordRunOfWord(n, b);
    assert x[1..1 + |n|] == n;
    assert '$' !in n by { assert forall k :: 0 <= k < |n| ==> IsWordChar(n[k]); }
    FindDollarAfterPlainText(n, b);
  }

  lemma WordRunOfWord(n: string, b: string)
    requires IsWord(n) && (b == [] || !IsWordChar(b[0]))
    ensures WordRun(n + b) == |n|
  {
    var s := n + b;
    assert forall k :: 0 <= k < |n| ==> s[k] == n[k];
    assert |n| < |s| ==> s[|n|] == b[0];
    WordRunUnique(s, |n|);
  }

  /** A well-formed template renders to a text whose `$name` matches are its references. */
  lemma {:induction false} RenderFinds(parts: seq<Part>)
    requires WellFormed(parts)
    ensures FindDollar(Render(parts)) == RefNames(parts)
    ensures FindBraced(Render(parts)) == []
    decreases |parts|
  {
    if |parts| > 0 {
      WellFormedTail(parts);
      RenderFinds(parts[1..]);
      var rest := Render(parts[1..]);
      if |parts| > 1 { RenderStart(parts[1..]); }
      match parts[0]
      case Lit(t) =>
        FindDollarAfterPlainText(t, rest);
      case Ref(n) =>
        FindAfterReference(n, rest);
    }
  }

  /** `$$` does not occur: every `$` is followed by something else. */
  predicate NoDoubleDollar(s: string) {
    forall k :: 0 <= k < |s| - 1 ==> !(s[k] == '$' && s[k + 1] == '$')
  }

  lemma NoDoubleDollarConcat(a: string, b: string)
    requires NoDoubleDollar(a) && NoDoubleDollar(b)
    requires a == [] || b == [] || a[|a| - 1] != '$'
    ensures NoDoubleDollar(a + b)
  {
    var s := a + b;
    forall k | 0 <= k < |s| - 1 ensures !(s[k] == '$' && s[k + 1] == '$') {
      assert k < |a| - 1 ==> s[k] == a[k] && s[k + 1] == a[k + 1];
      assert k == |a| - 1 ==> s[k] == a[k] && s[k + 1] == b[0];
      assert k >= |a| ==> s[k] == b[k - |a|] && s[k + 1] == b[k + 1 - |a|];
    }
  }

  lemma RenderPartShape(p: Part)
    requires p.Lit? ==> |p.text| > 0 && '$' !in p.text
    requires p.Ref? ==> IsWord(p.name)
    ensures NoDoubleDollar(RenderPart(p))
    ensures |RenderPart(p)| > 0 && RenderPart(p)[|RenderPart(p)| - 1] != '$'
  {
    var s := RenderPart(p);
    if p.Ref? {
      forall k | 0 <= k < |s| - 1 ensures !(s[k] == '$' && s[k + 1] == '$') {
        assert s[k + 1] == p.name[k];
      }
      assert s[|s| - 1] == p.name[|p.name| - 1];
    } else {
      assert s[|s| - 1] in p.text;
    }
  }

  /** A well-formed template has no `$$`, and does not end in `$`. */
  lemma {:induction false} RenderNoDoubleDollar(parts: seq<Part>)
    requires WellFormed(parts)
    ensures NoDoubleDollar(Render(parts))
    ensures Render(parts) == [] || Render(parts)[|Render(parts)| - 1] != '$'
    decreases |parts|
  {
    if |parts| > 0 {
      WellFormedTail(parts);
      RenderNoDoubleDollar(parts[1..]);
      RenderPartShape(parts[0]);
      var head, rest := RenderPart(parts[0]), Render(parts[1..]);
      NoDoubleDollarConcat(head, rest);
      assert rest == [] ==> head + rest == head;
      assert rest != [] ==> (head + rest)[|head + rest| - 1] == rest[|rest| - 1];
    }
  }

  lemma NoDoubleDollarSplit(s: string)
    requires NoDoubleDollar(s)
    ensures Split(s, "$$") == [s]
  {
    forall i | 0 <= i <= |s| - 2 ensures !OccursAt(s, "$$", i) {
      assert s[i..i + 2] == [s[i], s[i + 1]];
    }
  }

  /** The variables `vars_in` finds in a well-formed template are the names it references. */
  lemma TemplateVars(parts: seq<Part>)
    requires WellFormed(parts)
    ensures TextNames(Render(parts)) == RefNames(parts)
  {
    RenderFinds(parts);
    RenderNoDoubleDollar(parts);
    NoDoubleDollarSplit(Render(parts));
    assert PiecesNames([Render(parts)]) == PieceNames(Render(parts)) + PiecesNames([]);
  }

  lemma {:induction false} ExpandAfterPlainText(a: string, b: string, globals: map<string, string>, locals: map<string, string>)
    requires '$' !in a
    ensures Expand(a + b, globals, locals) == a + Expand(b, globals, locals)
    decreases |a|
  {
    if |a| > 0 {
      var s := a + b;
      assert s[0] == a[0] && s[1..] == a[1..] + b;
      ExpandPlainHead(s, globals, locals);
      assert '$' !in a[1..] by { assert forall k :: 0 <= k < |a| - 1 ==> a[1..][k] == a[k + 1]; }
      ExpandAfterPlainText(a[1..], b, globals, locals);
      PrependHead(a, Expand(b, globals, locals));
    } else {
      assert a + b == b;
    }
  }

  lemma ExpandPlainHead(s: string, globals: map<string, string>, locals: map<string, string>)
    requires |s| > 0 && s[0] != '$'
    ensures Expand(s, globals, locals) == [s[0]] + Expand(s[1..], globals, locals)
  {
  }

  lemma PrependHead<T>(a: seq<T>, t: seq<T>)
    requires |a| > 0
    ensures [a[0]] + (a[1..] + t) == a + t
  {
    assert a == [a[0]] + a[1..];
  }

  lemma ExpandAfterReference(n: string, b: string, globals: map<string, string>, locals: map<string, string>)
    requires IsWord(n) && (b == [] || !IsWordChar(b[0]))
    ensures Expand("$" + n + b, globals, locals) == Lookup(n, globals, locals) + Expand(b, globals, locals)
  {
    var x := "$" + n + b;
    assert x[1..] == n + b;
    WordRunOfWord(n, b);
    assert x[1..1 + |n|] == n;
    assert x[1 + |n|..] == b;
    assert x[1] == n[0];
  }

  /** Expanding a well-formed template substitutes each reference and keeps each literal. */
  lemma {:induction false} ExpandTemplate(parts: seq<Part>, globals: map<string, string>, locals: map<string, string>)
    requires WellFormed(parts)
    ensures Expand(Render(parts), globals, locals) == Substitute(parts, globals, locals)
    decreases |parts|
  {
    if |parts| > 0 {
      WellFormedTail(parts);
      ExpandTemplate(parts[1..], globals, locals);
      var rest := Render(parts[1..]);
      if |parts| > 1 { RenderStart(parts[1..]); }
      match parts[0]
      case Lit(t) =>
        ExpandAfterPlainText(t, rest, globals, locals);
      case Ref(n) =>
        ExpandAfterReference(n, rest, globals, locals);
    }
  }

  lemma RenderConcat(p: seq<Part>, q: seq<Part>)
    ensures Render(p + q) == Render(p) + Render(q)
    decreases |p|
  {
    if |p| > 0 {
      assert (p + q)[1..] == p[1..] + q;
      RenderConcat(p[1..], q);
    } else {
      assert p + q == q;
    }
  }

  lemma RefNamesConcat(p: seq<Part>, q: seq<Part>)
    ensures RefNames(p + q) == RefNames(p) + RefNames(q)
    decreases |p|
  {
    if |p| > 0 {
      assert (p + q)[1..] == p[1..] + q;
      RefNamesConcat(p[1..], q);
    } else {
      assert p + q == q;
    }
  }

  /** Two well-formed templates stay well-formed side by side unless a name would run on. */
  lemma WellFormedConcat(p: seq<Part>, q: seq<Part>)
    requires WellFormed(p) && WellFormed(q)
    requires |p| > 0 && |q| > 0 && p[|p| - 1].Ref? && q[0].Lit? ==> !IsWordChar(q[0].text[0])
    ensures WellFormed(p + q)
  {
    var s := p + q;
    forall k | 0 <= k < |s| - 1 && s[k].Ref? && s[k + 1].Lit?
      ensures !IsWordChar(s[k + 1].text[0])
    {
      if k < |p| - 1 {
        assert s[k] == p[k] && s[k + 1] == p[k + 1];
      } else if k == |p| - 1 {
        assert s[k] == p[k] && s[k + 1] == q[0];
      } else {
        assert s[k] == q[k - |p|] && s[k + 1] == q[k + 1 - |p|];
      }
    }
  }

  /** Every name `vars_in` reports is a `\w+` word. */
  lemma NamesAreWords(texts: seq<string>)
    ensures forall w :: w in TextsNames(texts) ==> IsWord(w)
    decreases |texts|
  {
    if |texts| > 0 {
      NamesAreWords(texts[1..]);
      forall w | w in TextNames(texts[0]) ensures IsWord(w) {
        PiecesVariables(Split(texts[0], "$$"), w);
      }
    }
  }
}
