/**
 * `parse_packages` (apt2ostree/apt.py): the reader of the apt Packages-format
 * lockfile. The file arrives as the lines a Python file object yields, each
 * still ending in its newline; paragraphs are separated by blank lines and
 * every paragraph becomes one record mapping field labels to values.
 */
module Packages {
  import opened Outcomes
  import opened Text

  /** One paragraph: field label to field value. */
  type Record = map<string, string>

  /** The generator's locals between two lines: the record so far and the last label seen. */
  datatype ParserState = ParserState(pkg: Record, field: Option<string>)

  const Start := ParserState(map[], None)

  /** What the generator has yielded so far, and whether it is still reading or has raised. */
  datatype Progress =
    | Reading(records: seq<Record>, state: ParserState)
    | Stopped(records: seq<Record>, error: Error)

  /** A finished run: every record yielded, then the exception that ended it, if any. */
  datatype Parsed = Parsed(records: seq<Record>, failure: Option<Error>)

  /**
   * Whether a line is taken as the ` .` marker of an empty continuation line.
   * As written the comparison is with the bare text ` .`, which a line read from
   * a file never equals because it keeps its newline; the corrected parser
   * compares the line with its trailing whitespace removed.
   */
  predicate IsMarker(line: string, corrected: bool) {
    if corrected then StripRight(line) == " ." else line == " ."
  }

  /** `label, data = line.split(': ', 1)`: split at the first `": "`, or fail to unpack one piece into two. */
  function SplitField(line: string): (r: Result<(string, string)>)
    ensures r.Err? <==> NoOccurrence(line, ": ")
    ensures r.Err? ==> r.error == UnpackError(2, 1)
    ensures r.Ok? ==> r.value.0 + ": " + r.value.1 == line && NoOccurrence(r.value.0, ": ")
  {
    var i := Find(line, ": ");
    if i < 0 then Err(UnpackError(2, 1))
    else
      PrefixBeforeFirst(line, ": ", i);
      assert line == line[..i] + line[i..i + 2] + line[i + 2..];
      Ok((line[..i], line[i + 2..]))
  }

  /** `pkg[label] += text`: a KeyError when there is no label yet (`None`) or it has no entry. */
  function Append(st: ParserState, text: string): Progress {
    match st.field
    case None => Stopped([], MissingKey(None))
    case Some(l) =>
      if l in st.pkg then Reading([], ParserState(st.pkg[l := st.pkg[l] + text], st.field))
      else Stopped([], MissingKey(Some(l)))
  }

  /** What one line asks for, tested in the order the loop tests it. */
  datatype LineKind =
    | Blank                                // ends the paragraph
    | Extend(text: string)                 // `pkg[label] += text`
    | Assign(name: string, value: string)  // `label, data = ...; pkg[label] = data.strip()`
    | Raise(error: Error)                  // the split found no `": "`

  function Classify(line: string, corrected: bool): (r: LineKind)
    ensures r.Raise? ==> r.error == UnpackError(2, 1)
  {
    if Strip(line) == "" then Blank
    else if IsMarker(line, corrected) then Extend("\n\n")
    else if StartsWith(line, " ") then Extend("\n" + Strip(line[1..]))
    else
      match SplitField(line)
      case Err(e) => Raise(e)
      case Ok((name, data)) => Assign(name, Strip(data))
  }

  /** The body of the loop for one line. */
  function Step(st: ParserState, line: string, corrected: bool): Progress {
    match Classify(line, corrected)
    case Blank => Reading(if st.pkg != map[] then [st.pkg] else [], Start)
    case Extend(text) => Append(st, text)
    case Assign(name, value) => Reading([], ParserState(st.pkg[name := value], Some(name)))
    case Raise(e) => Stopped([], e)
  }

  function Prepend(rs: seq<Record>, p: Progress): Progress {
    match p
    case Reading(more, st) => Reading(rs + more, st)
    case Stopped(more, e) => Stopped(rs + more, e)
  }

  /** Reads `lines` after having reached `p`; an exception stops the generator for good. */
  function Continue(p: Progress, lines: seq<string>, corrected: bool): Progress
    decreases |lines|, 1
  {
    match p
    case Reading(rs, st) => Prepend(rs, Run(st, lines, corrected))
    case Stopped(_, _) => p
  }

  function Run(st: ParserState, lines: seq<string>, corrected: bool): Progress
    decreases |lines|, 0
  {
    if |lines| == 0 then Reading([], st)
    else Continue(Step(st, lines[0], corrected), lines[1..], corrected)
  }

  /** The end of the file: a record still being read is not yielded. */
  function Conclude(p: Progress): Parsed {
    match p
    case Reading(rs, _) => Parsed(rs, None)
    case Stopped(rs, e) => Parsed(rs, Some(e))
  }

  /**
   * `parse_packages` exactly as written. It reads a file the way the corrected parser does
   * unless some line is `" ."` once its line ending is dropped.
   */
  function ParseAsWritten(lines: seq<string>): (r: Parsed)
    ensures (forall k :: 0 <= k < |lines| ==> !IsMarker(lines[k], true)) ==> r == Parse(lines)
  {
    ReadingsAgree(Start, lines);
    Conclude(Run(Start, lines, false))
  }

  /** `parse_packages` with the ` .` marker recognised on newline-terminated lines. */
  function Parse(lines: seq<string>): Parsed {
    Conclude(Run(Start, lines, true))
  }

  /** The generator's loop, consuming the lines one at a time (corrected marker test). */
  method ParsePackages(lines: seq<string>) returns (records: seq<Record>, failure: Option<Error>)
    ensures Parsed(records, failure) == Parse(lines)
  {
    var pkg: Record := map[];
    var field: Option<string> := None;
    records := [];
    var i := 0;
    assert lines[0..] == lines;
    PrependNothing(Run(Start, lines, true));
    while i < |lines|
      invariant 0 <= i <= |lines|
      invariant ReadSoFar(lines, i, records, ParserState(pkg, field))
    {
      ghost var st := ParserState(pkg, field);
      var yielded, raised;
      yielded, pkg, field, raised := ReadLine(pkg, field, lines[i]);
      if raised.Some? {
        Halt(lines, i, records, st, raised.value);
        return records, raised;
      }
      Advance(lines, i, records, st, yielded, ParserState(pkg, field));
      records := records + yielded;
      i := i + 1;
    }
    assert lines[i..] == [];
    failure := None;
  }

  /** The body of the loop for one line: what it yields, the new locals, or the exception it raises. */
  method ReadLine(pkg: Record, field: Option<string>, line: string)
    returns (yielded: seq<Record>, pkg': Record, field': Option<string>, raised: Option<Error>)
    ensures Step(ParserState(pkg, field), line, true) ==
      if raised.Some? then Stopped([], raised.value) else Reading(yielded, ParserState(pkg', field'))
  {
    var st := ParserState(pkg, field);
    if Strip(line) == "" {
      StepBlank(st, line, true);
      yielded := if pkg != map[] then [pkg] else [];
      pkg', field', raised := map[], None, None;
    } else if StripRight(line) == " ." || StartsWith(line, " ") {
      var text := if StripRight(line) == " ." then "\n\n" else "\n" + Strip(line[1..]);
      StepExtend(st, line);
      yielded := [];
      if field.None? || field.value !in pkg {
        pkg', field', raised := pkg, field, Some(MissingKey(field));
      } else {
        pkg', field', raised := pkg[field.value := pkg[field.value] + text], field, None;
      }
    } else {
      var split := SplitField(line);
      yielded := [];
      if split.Err? {
        StepRaise(st, line, split.error);
        pkg', field', raised := pkg, field, Some(split.error);
      } else {
        var (f, data) := split.value;
        StepAssign(st, line, f, data);
        pkg', field', raised := pkg[f := Strip(data)], Some(f), None;
      }
    }
  }

  lemma StepRaise(st: ParserState, line: string, e: Error)
    requires Strip(line) != "" && StripRight(line) != " ." && !StartsWith(line, " ")
    requires SplitField(line) == Err(e)
    ensures Step(st, line, true) == Stopped([], e)
  {
    ClassifyRaise(line, true, e);
    StepOfRaise(st, line, true, e);
  }

  lemma StepOfRaise(st: ParserState, line: string, c: bool, e: Error)
    requires Classify(line, c) == Raise(e)
    ensures Step(st, line, c) == Stopped([], e)
  {
  }

  lemma StepAssign(st: ParserState, line: string, name: string, data: string)
    requires Strip(line) != "" && StripRight(line) != " ." && !StartsWith(line, " ")
    requires SplitField(line) == Ok((name, data))
    ensures Step(st, line, true) == Reading([], ParserState(st.pkg[name := Strip(data)], Some(name)))
  {
    ClassifyAssign(line, true, name, data);
    StepOfAssign(st, line, true, name, Strip(data));
  }

  lemma StepOfAssign(st: ParserState, line: string, c: bool, name: string, value: string)
    requires Classify(line, c) == Assign(name, value)
    ensures Step(st, line, c) == Reading([], ParserState(st.pkg[name := value], Some(name)))
  {
  }

  lemma StepBlank(st: ParserState, line: string, c: bool)
    requires Strip(line) == ""
    ensures Step(st, line, c) == Reading(if st.pkg != map[] then [st.pkg] else [], Start)
  {
  }

  lemma StepExtend(st: ParserState, line: string)
    requires Strip(line) != "" && (StripRight(line) == " ." || StartsWith(line, " "))
    ensures Step(st, line, true) == Append(st, if StripRight(line) == " ." then "\n\n" else "\n" + Strip(line[1..]))
  {
    ClassifyExtend(line);
    StepOfExtend(st, line, true, Classify(line, true).text);
  }

  lemma StepOfExtend(st: ParserState, line: string, c: bool, text: string)
    requires Classify(line, c) == Extend(text)
    ensures Step(st, line, c) == Append(st, text)
  {
  }

  lemma ClassifyExtend(line: string)
    requires Strip(line) != "" && (StripRight(line) == " ." || StartsWith(line, " "))
    ensures Classify(line, true) == Extend(if StripRight(line) == " ." then "\n\n" else "\n" + Strip(line[1..]))
  {
    assert IsMarker(line, true) <==> StripRight(line) == " .";
  }

  /** Without a `" ."` line, however the marker is read, both readings of the lines are the same. */
  lemma {:induction false} ReadingsAgree(st: ParserState, lines: seq<string>)
    ensures (forall k :: 0 <= k < |lines| ==> !IsMarker(lines[k], true)) ==> Run(st, lines, false) == Run(st, lines, true)
    decreases |lines|
  {
    if |lines| > 0 && forall k :: 0 <= k < |lines| ==> !IsMarker(lines[k], true) {
      var line := lines[0];
      assert !IsMarker(line, true);
      assert !IsMarker(line, false);
      assert Classify(line, false) == Classify(line, true);
      assert Step(st, line, false) == Step(st, line, true);
      var rest := lines[1..];
      assert forall k :: 0 <= k < |rest| ==> !IsMarker(rest[k], true) by {
        forall k | 0 <= k < |rest| ensures !IsMarker(rest[k], true) {
          assert rest[k] == lines[k + 1];
        }
      }
      match Step(st, line, true)
      case Reading(_, next) =>
        ReadingsAgree(next, rest);
      case Stopped(_, _) =>
    }
  }

  /** After `i` lines the run has yielded `records` and stands at `st`. */
  ghost predicate ReadSoFar(lines: seq<string>, i: int, records: seq<Record>, st: ParserState)
    requires 0 <= i <= |lines|
  {
    Run(Start, lines, true) == Prepend(records, Run(st, lines[i..], true))
  }

  /** One line read without an exception keeps the loop invariant. */
  lemma Advance(lines: seq<string>, i: int, records: seq<Record>, st: ParserState, yielded: seq<Record>, next: ParserState)
    requires 0 <= i < |lines| && ReadSoFar(lines, i, records, st)
    requires Step(st, lines[i], true) == Reading(yielded, next)
    ensures ReadSoFar(lines, i + 1, records + yielded, next)
  {
    RunAt(st, lines, i);
    PrependAssoc(records, yielded, Run(next, lines[i + 1..], true));
  }

  /** A line that raises ends the run with the records yielded before it. */
  lemma Halt(lines: seq<string>, i: int, records: seq<Record>, st: ParserState, e: Error)
    requires 0 <= i < |lines| && ReadSoFar(lines, i, records, st)
    requires Step(st, lines[i], true) == Stopped([], e)
    ensures Parse(lines) == Parsed(records, Some(e))
  {
    RunAt(st, lines, i);
    assert records + [] == records;
  }

  lemma PrependAssoc(a: seq<Record>, b: seq<Record>, p: Progress)
    ensures Prepend(a, Prepend(b, p)) == Prepend(a + b, p)
  {
    match p
    case Reading(more, _) => assert a + (b + more) == (a + b) + more;
    case Stopped(more, _) => assert a + (b + more) == (a + b) + more;
  }

  lemma PrependNothing(p: Progress)
    ensures Prepend([], p) == p
  {
    match p
    case Reading(more, _) => assert [] + more == more;
    case Stopped(more, _) => assert [] + more == more;
  }

  lemma RunAt(st: ParserState, lines: seq<string>, i: int)
    requires 0 <= i < |lines|
    ensures Run(st, lines[i..], true) == Continue(Step(st, lines[i], true), lines[i + 1..], true)
  {
    assert lines[i..][1..] == lines[i + 1..];
  }

  /** Reading `a + b` is reading `a`, then going on with `b` from wherever `a` left off. */
  lemma {:induction false} RunConcat(st: ParserState, a: seq<string>, b: seq<string>, c: bool)
    ensures Run(st, a + b, c) == Continue(Run(st, a, c), b, c)
    decreases |a|
  {
    if |a| == 0 {
      assert a + b == b;
      PrependNothing(Run(st, b, c));
    } else {
      assert (a + b)[0] == a[0] && (a + b)[1..] == a[1..] + b;
      var p := Step(st, a[0], c);
      if p.Reading? {
        RunConcat(p.state, a[1..], b, c);
        ContinuePrepend(p.records, Run(p.state, a[1..], c), b, c);
      }
    }
  }

  lemma ContinuePrepend(rs: seq<Record>, p: Progress, b: seq<string>, c: bool)
    ensures Continue(Prepend(rs, p), b, c) == Prepend(rs, Continue(p, b, c))
  {
    if p.Reading? {
      PrependAssoc(rs, p.records, Run(p.state, b, c));
    }
  }

  /** Every record the generator yields has at least one field. */
  lemma {:induction false} YieldedRecordsNonEmpty(st: ParserState, lines: seq<string>, c: bool)
    ensures forall k :: 0 <= k < |Run(st, lines, c).records| ==> Run(st, lines, c).records[k] != map[]
    decreases |lines|
  {
    if |lines| > 0 {
      var p := Step(st, lines[0], c);
      StepRecordsNonEmpty(st, lines[0], c);
      if p.Reading? {
        var rest := Run(p.state, lines[1..], c);
        YieldedRecordsNonEmpty(p.state, lines[1..], c);
        assert Run(st, lines, c) == Prepend(p.records, rest);
        PrependRecords(p.records, rest);
      }
    }
  }

  /** A step yields at most the record it was reading, and only one with a field. */
  lemma StepRecordsNonEmpty(st: ParserState, line: string, c: bool)
    ensures forall k :: 0 <= k < |Step(st, line, c).records| ==> Step(st, line, c).records[k] != map[]
  {
    StepRecords(st, line, c, Classify(line, c));
  }

  lemma StepRecords(st: ParserState, line: string, c: bool, kind: LineKind)
    requires Classify(line, c) == kind
    ensures Step(st, line, c).records == if kind.Blank? && st.pkg != map[] then [st.pkg] else []
  {
  }

  lemma PrependRecords(rs: seq<Record>, p: Progress)
    ensures Prepend(rs, p).records == rs + p.records
  {
  }

  lemma ParsedRecordsNonEmpty(lines: seq<string>)
    ensures forall k :: 0 <= k < |Parse(lines).records| ==> Parse(lines).records[k] != map[]
    ensures forall k :: 0 <= k < |ParseAsWritten(lines).records| ==> ParseAsWritten(lines).records[k] != map[]
  {
    YieldedRecordsNonEmpty(Start, lines, true);
    YieldedRecordsNonEmpty(Start, lines, false);
  }

  /** Records are only yielded at blank lines: lines with none yield nothing. */
  lemma {:induction false} NoBlankNoRecords(st: ParserState, lines: seq<string>, c: bool)
    requires forall k :: 0 <= k < |lines| ==> !AllSpace(lines[k])
    ensures Run(st, lines, c).records == []
    decreases |lines|
  {
    if |lines| > 0 {
      var p := Step(st, lines[0], c);
      StepNoRecords(st, lines[0], c);
      if p.Reading? {
        NoBlankNoRecords(p.state, lines[1..], c);
        PrependNothing(Run(p.state, lines[1..], c));
      }
    }
  }

  /** A line with something on it yields no record. */
  lemma StepNoRecords(st: ParserState, line: string, c: bool)
    requires !AllSpace(line)
    ensures Step(st, line, c).records == []
  {
    NotBlankClassify(line, c);
    StepRecords(st, line, c, Classify(line, c));
  }

  lemma NotBlankClassify(line: string, c: bool)
    requires !AllSpace(line)
    ensures !Classify(line, c).Blank?
  {
    StripEmptyIffAllSpace(line);
  }

  /**
   * A last paragraph with no blank line after it is dropped: appending lines
   * without a blank one changes none of the records yielded.
   */
  lemma TrailingParagraphDropped(lines: seq<string>, tail: seq<string>)
    requires forall k :: 0 <= k < |tail| ==> !AllSpace(tail[k])
    ensures Parse(lines + tail).records == Parse(lines).records
    ensures ParseAsWritten(lines + tail).records == ParseAsWritten(lines).records
  {
    RunWithoutBlank(lines, tail, true);
    RunWithoutBlank(lines, tail, false);
  }

  lemma RunWithoutBlank(lines: seq<string>, tail: seq<string>, c: bool)
    requires forall k :: 0 <= k < |tail| ==> !AllSpace(tail[k])
    ensures Run(Start, lines + tail, c).records == Run(Start, lines, c).records
  {
    RunConcat(Start, lines, tail, c);
    var p := Run(Start, lines, c);
    if p.Reading? {
      NoBlankNoRecords(p.state, tail, c);
      assert p.records + [] == p.records;
    }
  }

  /** A first line that continues a field raises `KeyError(None)` before anything is yielded. */
  lemma LeadingContinuation(lines: seq<string>)
    requires |lines| > 0 && StartsWith(lines[0], " ") && !AllSpace(lines[0])
    ensures Parse(lines) == Parsed([], Some(MissingKey(None)))
    ensures ParseAsWritten(lines) == Parsed([], Some(MissingKey(None)))
  {
    ClassifyContinued(lines[0], true);
    assert Step(Start, lines[0], true) == Stopped([], MissingKey(None));
    assert Run(Start, lines, true) == Stopped([], MissingKey(None));
    ClassifyContinued(lines[0], false);
    assert Step(Start, lines[0], false) == Stopped([], MissingKey(None));
    assert Run(Start, lines, false) == Stopped([], MissingKey(None));
  }

  lemma ClassifyContinued(line: string, c: bool)
    requires StartsWith(line, " ") && !AllSpace(line)
    ensures Classify(line, c).Extend?
  {
    StripEmptyIffAllSpace(line);
  }

  /** The last label always has an entry in the record being read. */
  ghost predicate FieldKept(st: ParserState) {
    st.field.Some? ==> st.field.value in st.pkg
  }

  /** So the only KeyError a run can raise is the one for a missing label (`None`). */
  lemma {:induction false} OnlyUnlabelledKeyError(st: ParserState, lines: seq<string>, c: bool)
    requires FieldKept(st)
    ensures Run(st, lines, c).Stopped? && Run(st, lines, c).error.MissingKey? ==>
      Run(st, lines, c).error == MissingKey(None)
    ensures Run(st, lines, c).Stopped? ==>
      Run(st, lines, c).error.MissingKey? || Run(st, lines, c).error == UnpackError(2, 1)
    decreases |lines|
  {
    if |lines| > 0 {
      StepKeepsField(st, lines[0], c);
      var p := Step(st, lines[0], c);
      if p.Reading? {
        OnlyUnlabelledKeyError(p.state, lines[1..], c);
      }
    }
  }

  lemma StepKeepsField(st: ParserState, line: string, c: bool)
    requires FieldKept(st)
    ensures Step(st, line, c).Reading? ==> FieldKept(Step(st, line, c).state)
    ensures Step(st, line, c).Stopped? && Step(st, line, c).error.MissingKey? ==>
      Step(st, line, c).error == MissingKey(None)
    ensures Step(st, line, c).Stopped? ==>
      Step(st, line, c).error.MissingKey? || Step(st, line, c).error == UnpackError(2, 1)
  {
    var kind := Classify(line, c);
    match kind
    case Blank =>
    case Extend(_) =>
    case Assign(_, _) =>
    case Raise(e) =>
      assert Step(st, line, c) == Stopped([], e);
      assert !e.MissingKey? by { assert kind == Classify(line, c); }
  }

  lemma ParseOnlyUnlabelledKeyError(lines: seq<string>)
    ensures Parse(lines).failure.Some? && Parse(lines).failure.value.MissingKey? ==>
      Parse(lines).failure.value == MissingKey(None)
    ensures ParseAsWritten(lines).failure.Some? && ParseAsWritten(lines).failure.value.MissingKey? ==>
      ParseAsWritten(lines).failure.value == MissingKey(None)
    ensures Parse(lines).failure.Some? ==>
      Parse(lines).failure.value in {MissingKey(None), UnpackError(2, 1)}
  {
    OnlyUnlabelledKeyError(Start, lines, true);
    OnlyUnlabelledKeyError(Start, lines, false);
  }

  // ---- Writing paragraphs out, and reading them back ----

  /**
   * A field as it appears in the file: `label: value`, then one continuation
   * line per entry of `more`, where an empty entry is written as the ` .` marker.
   */
  datatype Field = Field(name: string, value: string, more: seq<string>)

  function ContinuationLine(m: string): string {
    if m == "" then " ." + "\n" else " " + m + "\n"
  }

  function ContinuationLines(more: seq<string>): (r: seq<string>)
    ensures |r| == |more|
  {
    if |more| == 0 then [] else [ContinuationLine(more[0])] + ContinuationLines(more[1..])
  }

  function HeadLine(f: Field): string {
    f.name + ": " + f.value + "\n"
  }

  function FieldLines(f: Field): seq<string> {
    [HeadLine(f)] + ContinuationLines(f.more)
  }

  /** The text a continuation line adds to its field's value. */
  function Continuation(m: string): string {
    if m == "" then "\n\n" else "\n" + m
  }

  function Continued(more: seq<string>): string {
    if |more| == 0 then "" else Continuation(more[0]) + Continued(more[1..])
  }

  function FieldValue(f: Field): string {
    f.value + Continued(f.more)
  }

  /** Fields the parser can read back: no `": "` in the label, no surrounding whitespace in the text. */
  predicate WellFormedField(f: Field) {
    && (f.name == [] || f.name[0] != ' ')
    && NoOccurrence(f.name, ": ")
    && Stripped(f.value)
    && forall k :: 0 <= k < |f.more| ==> Stripped(f.more[k]) && f.more[k] != "."
  }

  predicate WellFormedParagraph(fs: seq<Field>) {
    |fs| > 0 && forall k :: 0 <= k < |fs| ==> WellFormedField(fs[k])
  }

  function AllFieldLines(fs: seq<Field>): seq<string> {
    if |fs| == 0 then [] else FieldLines(fs[0]) + AllFieldLines(fs[1..])
  }

  function ParagraphLines(fs: seq<Field>): seq<string> {
    AllFieldLines(fs) + ["\n"]
  }

  /** A lockfile: the paragraphs, each closed by a blank line. */
  function Serialize(ps: seq<seq<Field>>): seq<string> {
    if |ps| == 0 then [] else ParagraphLines(ps[0]) + Serialize(ps[1..])
  }

  /** Assigning the fields in order; a repeated label keeps its last value. */
  function Overlay(m: Record, fs: seq<Field>): Record
    decreases |fs|
  {
    if |fs| == 0 then m else Overlay(m[fs[0].name := FieldValue(fs[0])], fs[1..])
  }

  function RecordOf(fs: seq<Field>): Record {
    Overlay(map[], fs)
  }

  function RecordsOf(ps: seq<seq<Field>>): (r: seq<Record>)
    ensures |r| == |ps|
  {
    if |ps| == 0 then [] else [RecordOf(ps[0])] + RecordsOf(ps[1..])
  }

  /** Reading a lockfile written from well-formed paragraphs gives back one record per paragraph. */
  lemma {:induction false} ParseSerialize(ps: seq<seq<Field>>)
    requires forall k :: 0 <= k < |ps| ==> WellFormedParagraph(ps[k])
    ensures Parse(Serialize(ps)) == Parsed(RecordsOf(ps), None)
  {
    RunParagraphs(ps);
  }

  lemma {:induction false} RunParagraphs(ps: seq<seq<Field>>)
    requires forall k :: 0 <= k < |ps| ==> WellFormedParagraph(ps[k])
    ensures Run(Start, Serialize(ps), true) == Reading(RecordsOf(ps), Start)
    decreases |ps|
  {
    if |ps| > 0 {
      RunParagraph(ps[0]);
      RunParagraphs(ps[1..]);
      RunConcat(Start, ParagraphLines(ps[0]), Serialize(ps[1..]), true);
    }
  }

  lemma RunParagraph(fs: seq<Field>)
    requires WellFormedParagraph(fs)
    ensures Run(Start, ParagraphLines(fs), true) == Reading([RecordOf(fs)], Start)
  {
    var p := Run(Start, AllFieldLines(fs), true);
    RunFields(Start, fs);
    RecordOfNonEmpty(fs);
    RunConcat(Start, AllFieldLines(fs), ["\n"], true);
    RunBlankLine(p.state);
    PrependNothing(Run(p.state, ["\n"], true));
  }

  /** A paragraph with a field yields a record with an entry. */
  lemma RecordOfNonEmpty(fs: seq<Field>)
    requires |fs| > 0
    ensures fs[0].name in RecordOf(fs)
  {
    OverlayKeeps(map[][fs[0].name := FieldValue(fs[0])], fs[1..], fs[0].name);
  }

  /** The blank line after a paragraph yields the record read so far and starts afresh. */
  lemma RunBlankLine(st: ParserState)
    requires st.pkg != map[]
    ensures Run(st, ["\n"], true) == Reading([st.pkg], Start)
  {
    NewlineIsBlank();
    StepBlank(st, "\n", true);
    RunOne(st, "\n", true);
  }

  lemma NewlineIsBlank()
    ensures Strip("\n") == ""
  {
    assert AllSpace("\n");
    StripEmptyIffAllSpace("\n");
  }

  lemma {:induction false} OverlayKeeps(m: Record, fs: seq<Field>, key: string)
    requires key in m
    ensures key in Overlay(m, fs)
    decreases |fs|
  {
    if |fs| > 0 {
      OverlayKeeps(m[fs[0].name := FieldValue(fs[0])], fs[1..], key);
    }
  }

  lemma {:induction false} RunFields(st: ParserState, fs: seq<Field>)
    requires forall k :: 0 <= k < |fs| ==> WellFormedField(fs[k])
    ensures Run(st, AllFieldLines(fs), true).Reading?
    ensures Run(st, AllFieldLines(fs), true).records == []
    ensures Run(st, AllFieldLines(fs), true).state.pkg == Overlay(st.pkg, fs)
    decreases |fs|
  {
    if |fs| > 0 {
      RunField(st, fs[0]);
      var next := ParserState(st.pkg[fs[0].name := FieldValue(fs[0])], Some(fs[0].name));
      RunFields(next, fs[1..]);
      RunConcat(st, FieldLines(fs[0]), AllFieldLines(fs[1..]), true);
    }
  }

  lemma RunField(st: ParserState, f: Field)
    requires WellFormedField(f)
    ensures Run(st, FieldLines(f), true) == Reading([], ParserState(st.pkg[f.name := FieldValue(f)], Some(f.name)))
  {
    var next := ParserState(st.pkg[f.name := f.value], Some(f.name));
    FirstFieldLine(st, f, true);
    RunContinuations(next, f.name, f.more);
    Reassign(st.pkg, f.name, f.value, FieldValue(f));
  }

  lemma Reassign(m: Record, k: string, a: string, b: string)
    ensures m[k := a][k := b] == m[k := b]
  {
  }

  lemma FirstFieldLine(st: ParserState, f: Field, c: bool)
    requires WellFormedField(f)
    ensures Run(st, FieldLines(f), c) ==
      Run(ParserState(st.pkg[f.name := f.value], Some(f.name)), ContinuationLines(f.more), c)
  {
    var next := ParserState(st.pkg[f.name := f.value], Some(f.name));
    HeadLineStep(st, f, c);
    RunOne(st, HeadLine(f), c);
    RunConcat(st, [HeadLine(f)], ContinuationLines(f.more), c);
    PrependNothing(Run(next, ContinuationLines(f.more), c));
  }

  /** The first line of a field sets its label and stripped value, under either marker test. */
  lemma HeadLineStep(st: ParserState, f: Field, c: bool)
    requires WellFormedField(f)
    ensures Step(st, HeadLine(f), c) == Reading([], ParserState(st.pkg[f.name := f.value], Some(f.name)))
  {
    ClassifyHeadLine(f, c);
  }

  lemma ClassifyHeadLine(f: Field, c: bool)
    requires WellFormedField(f)
    ensures Classify(HeadLine(f), c) == Assign(f.name, f.value)
  {
    HeadLineShape(f);
    HeadDataStrip(f);
    ClassifyAssign(HeadLine(f), c, f.name, f.value + "\n");
  }

  lemma HeadLineShape(f: Field)
    requires WellFormedField(f)
    ensures Strip(HeadLine(f)) != "" && StripRight(HeadLine(f)) != " ." && !StartsWith(HeadLine(f), " ")
    ensures SplitField(HeadLine(f)) == Ok((f.name, f.value + "\n"))
  {
    HeadLineNotBlank(f);
    HeadLineNotContinued(f);
    SplitHeadLine(f);
  }

  lemma HeadDataStrip(f: Field)
    requires WellFormedField(f)
    ensures Strip(f.value + "\n") == f.value
  {
    StripOfStripped(f.value, "\n");
  }

  /** A line that is neither blank, a marker nor a continuation, and splits, assigns its label. */
  lemma ClassifyAssign(line: string, c: bool, name: string, data: string)
    requires Strip(line) != "" && StripRight(line) != " ." && !StartsWith(line, " ")
    requires SplitField(line) == Ok((name, data))
    ensures Classify(line, c) == Assign(name, Strip(data))
  {
    assert !IsMarker(line, c);
  }

  /** A line that is neither blank, a marker nor a continuation, and does not split, raises. */
  lemma ClassifyRaise(line: string, c: bool, e: Error)
    requires Strip(line) != "" && StripRight(line) != " ." && !StartsWith(line, " ")
    requires SplitField(line) == Err(e)
    ensures Classify(line, c) == Raise(e)
  {
    assert !IsMarker(line, c);
  }

  lemma SplitHeadLine(f: Field)
    requires WellFormedField(f)
    ensures SplitField(HeadLine(f)) == Ok((f.name, f.value + "\n"))
  {
    var line := HeadLine(f);
    var n := |f.name|;
    assert line == f.name + ": " + (f.value + "\n");
    FindFirstAt(f.name, ": ", f.value + "\n");
    assert line[..n] == f.name && line[n + 2..] == f.value + "\n";
  }

  lemma HeadLineNotBlank(f: Field)
    ensures Strip(HeadLine(f)) != ""
  {
    assert HeadLine(f)[|f.name|] == ':';
    StripEmptyIffAllSpace(HeadLine(f));
  }

  lemma HeadLineNotContinued(f: Field)
    requires f.name == [] || f.name[0] != ' '
    ensures StripRight(HeadLine(f)) != " ." && !StartsWith(HeadLine(f), " ")
  {
    var line := HeadLine(f);
    var n := |f.name|;
    assert line[n] == ':';
    var r := StripRight(line);
    assert |r| > n;
    assert r[0] == line[0] != ' ';
  }

  /** A continuation line, after a field, extends that field's value. */
  lemma ContinuationStep(st: ParserState, l: string, m: string)
    requires st.field == Some(l) && l in st.pkg
    requires Stripped(m) && m != "."
    ensures Step(st, ContinuationLine(m), true) == Reading([], ParserState(st.pkg[l := st.pkg[l] + Continuation(m)], Some(l)))
  {
    ClassifyContinuation(m);
  }

  lemma ClassifyContinuation(m: string)
    requires Stripped(m) && m != "."
    ensures Classify(ContinuationLine(m), true) == Extend(Continuation(m))
  {
    if m == "" {
      ClassifyMarker(ContinuationLine(m));
    } else {
      ClassifyTextLine(m, ContinuationLine(m));
    }
  }

  lemma ClassifyTextLine(m: string, line: string)
    requires Stripped(m) && m != "." && m != "" && line == " " + m + "\n"
    ensures Classify(line, true) == Extend("\n" + m)
  {
    assert line[1] == m[0];
    StripEmptyIffAllSpace(line);
    assert Strip(line) != "";
    assert line == (" " + m) + "\n";
    StripRightSpaceTail(" " + m, "\n");
    assert (" " + m)[1..] == m;
    assert !IsMarker(line, true);
    assert StartsWith(line, " ");
    assert line[1..] == m + "\n";
    StripOfStripped(m, "\n");
    assert Strip(line[1..]) == m;
  }

  /** The marker line read from a file: recognised only by the corrected test. */
  lemma ClassifyMarker(line: string)
    requires line == " ." + "\n"
    ensures Classify(line, true) == Extend("\n\n")
    ensures Classify(line, false) == Extend("\n.")
  {
    assert line[1] == '.';
    StripEmptyIffAllSpace(line);
    StripRightSpaceTail(" .", "\n");
    assert line[1..] == "." + "\n";
    StripOfStripped(".", "\n");
    ClassifyCorrectedMarker(line);
    ClassifyAsWrittenMarker(line);
  }

  lemma ClassifyCorrectedMarker(line: string)
    requires Strip(line) != "" && StripRight(line) == " ."
    ensures Classify(line, true) == Extend("\n\n")
  {
  }

  lemma ClassifyAsWrittenMarker(line: string)
    requires Strip(line) != "" && line != " ." && |line| > 0 && line[0] == ' '
    ensures Classify(line, false) == Extend("\n" + Strip(line[1..]))
  {
    assert StartsWith(line, " ");
  }

  lemma {:induction false} RunContinuations(st: ParserState, l: string, more: seq<string>)
    requires st.field == Some(l) && l in st.pkg
    requires forall k :: 0 <= k < |more| ==> Stripped(more[k]) && more[k] != "."
    ensures Run(st, ContinuationLines(more), true) == Reading([], ParserState(st.pkg[l := st.pkg[l] + Continued(more)], Some(l)))
    decreases |more|
  {
    if |more| == 0 {
      assert st.pkg[l] + "" == st.pkg[l];
      assert st.pkg[l := st.pkg[l] + ""] == st.pkg;
    } else {
      var next := ParserState(st.pkg[l := st.pkg[l] + Continuation(more[0])], Some(l));
      FirstContinuation(st, l, more);
      RunContinuations(next, l, more[1..]);
      ExtendTwice(st.pkg, l, Continuation(more[0]), Continued(more[1..]));
    }
  }

  lemma ExtendTwice(m: Record, l: string, a: string, b: string)
    requires l in m
    ensures m[l := m[l] + a][l := (m[l] + a) + b] == m[l := m[l] + (a + b)]
  {
    assert (m[l] + a) + b == m[l] + (a + b);
  }

  lemma FirstContinuation(st: ParserState, l: string, more: seq<string>)
    requires st.field == Some(l) && l in st.pkg
    requires |more| > 0 && Stripped(more[0]) && more[0] != "."
    ensures Run(st, ContinuationLines(more), true) ==
      Run(ParserState(st.pkg[l := st.pkg[l] + Continuation(more[0])], Some(l)), ContinuationLines(more[1..]), true)
  {
    var line, rest := ContinuationLine(more[0]), ContinuationLines(more[1..]);
    var next := ParserState(st.pkg[l := st.pkg[l] + Continuation(more[0])], Some(l));
    ContinuationStep(st, l, more[0]);
    RunOne(st, line, true);
    assert ContinuationLines(more) == [line] + rest;
    RunConcat(st, [line], rest, true);
    PrependNothing(Run(next, rest, true));
  }

  /** Reading a single line. */
  lemma RunOne(st: ParserState, line: string, c: bool)
    ensures Step(st, line, c).Reading? ==> Run(st, [line], c) == Step(st, line, c)
  {
    assert [line][0] == line && [line][1..] == [];
    var p := Step(st, line, c);
    if p.Reading? {
      assert Run(p.state, [], c) == Reading([], p.state);
      assert p.records + [] == p.records;
      assert Run(st, [line], c) == Prepend(p.records, Reading([], p.state));
    }
  }

  // ---- The ` .` marker as written ----

  /** As written, a ` .` line read from a file appends `"\n."` where the marker means `"\n\n"`. */
  lemma AsWrittenMarkerLine(st: ParserState, l: string, line: string)
    requires st.field == Some(l) && l in st.pkg
    requires line == " ." + "\n"
    ensures Step(st, line, false) == Reading([], ParserState(st.pkg[l := st.pkg[l] + "\n."], Some(l)))
    ensures Step(st, line, true) == Reading([], ParserState(st.pkg[l := st.pkg[l] + "\n\n"], Some(l)))
  {
    ClassifyMarker(line);
  }

  /**
   * A paragraph of one field whose only continuation is the ` .` marker, e.g.
   * the lines `D: x\n`, ` .\n`, `\n`: as written the value read is `x\n.`,
   * where the marker means an empty line, `x\n\n`, as the corrected parser reads it.
   */
  lemma AsWrittenLosesEmptyLine(f: Field)
    requires WellFormedField(f) && |f.more| == 1 && |f.more[0]| == 0
    ensures ParseAsWritten(ParagraphLines([f])) == Parsed([map[f.name := f.value + "\n."]], None)
    ensures Parse(ParagraphLines([f])) == Parsed([map[f.name := f.value + "\n\n"]], None)
  {
    CorrectedReadsEmptyLine(f);
    var s2 := ParserState(map[f.name := f.value + "\n."], Some(f.name));
    AsWrittenField(f);
    assert AllFieldLines([f]) == FieldLines(f) by {
      assert AllFieldLines([f][1..]) == [];
    }
    assert ParagraphLines([f]) == FieldLines(f) + ["\n"];
    RunConcat(Start, FieldLines(f), ["\n"], false);
    assert f.name in s2.pkg;
    EndParagraph(s2, false);
    PrependNothing(Run(s2, ["\n"], false));
  }

  /** The blank line that closes a paragraph. */
  lemma EndParagraph(st: ParserState, c: bool)
    ensures Run(st, ["\n"], c) == Reading(if st.pkg != map[] then [st.pkg] else [], Start)
  {
    BlankLine(st, "\n", c);
    RunOne(st, "\n", c);
  }

  /** As written, the field's lines leave `"\n."` at the end of its value. */
  lemma AsWrittenField(f: Field)
    requires WellFormedField(f) && |f.more| == 1 && |f.more[0]| == 0
    ensures Run(Start, FieldLines(f), false) == Reading([], ParserState(map[f.name := f.value + "\n."], Some(f.name)))
  {
    var s1 := ParserState(map[][f.name := f.value], Some(f.name));
    FirstFieldLine(Start, f, false);
    AsWrittenMarkerRun(s1, f.name, f.more);
    Reassign(map[], f.name, f.value, f.value + "\n.");
  }

  lemma AsWrittenMarkerRun(st: ParserState, l: string, more: seq<string>)
    requires st.field == Some(l) && l in st.pkg
    requires |more| == 1 && |more[0]| == 0
    ensures Run(st, ContinuationLines(more), false) == Reading([], ParserState(st.pkg[l := st.pkg[l] + "\n."], Some(l)))
  {
    var line := ContinuationLine(more[0]);
    assert ContinuationLines(more) == [line] by {
      assert ContinuationLines(more[1..]) == [];
    }
    AsWrittenMarkerLine(st, l, line);
    RunOne(st, line, false);
  }

  lemma CorrectedReadsEmptyLine(f: Field)
    requires WellFormedField(f) && |f.more| == 1 && |f.more[0]| == 0
    ensures Parse(ParagraphLines([f])) == Parsed([map[f.name := f.value + "\n\n"]], None)
  {
    RunParagraph([f]);
    assert [f][1..] == [] && f.more[1..] == [];
    assert Continued(f.more) == "\n\n" + Continued([]);
    assert "\n\n" + Continued([]) == "\n\n";
    assert Overlay(map[], [f]) == Overlay(map[][f.name := FieldValue(f)], []);
  }

  /** A line of whitespace ends the paragraph, yielding the record if it has a field. */
  lemma BlankLine(st: ParserState, line: string, c: bool)
    requires AllSpace(line)
    ensures Step(st, line, c) == Reading(if st.pkg != map[] then [st.pkg] else [], Start)
  {
    StripEmptyIffAllSpace(line);
  }
}
