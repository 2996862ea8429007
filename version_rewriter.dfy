/** The firmware-version rewriter of updateFileName.py (`main`): one pass over the
    lines of a C header that rewrites the four `#define FW_..._VERSION (n)` marker
    lines and reports the version `major.minor.datecode.revision`. */
module VersionRewriter {
  import opened Wrappers
  import opened Text
  import opened DateCode

  const MajorTag := "#define FW_MAJOR_VERSION"
  const MinorTag := "#define FW_MINOR_VERSION"
  const VersionTag := "#define FW_VERSION_VERSION"
  const RevisionTag := "#define FW_REVISION_VERSION"

  /** The line the script writes for a marker: `"    <tag> (<value>)\n"`. With
      `MajorTag` this is `major_regex % v`, with `RevisionTag` it is
      `revision_regx % v`, with `VersionTag` and the date code it is `version_str`. */
  function MarkerLine(tag: string, value: string): string
  {
    "    " + tag + " (" + value + ")\n"
  }

  /** Which branch of the scan handles a line. */
  datatype Marker = MajorMarker | MinorMarker | VersionMarker | RevisionMarker | NoMarker

  /** The tags in the order the script tests them, each with its branch. */
  const MarkerTests: seq<(string, Marker)> :=
    [(MajorTag, MajorMarker), (MinorTag, MinorMarker), (VersionTag, VersionMarker), (RevisionTag, RevisionMarker)]

  /** The branch of the first test in `tests` whose tag `line` contains. */
  function FirstMatch(line: string, tests: seq<(string, Marker)>): Marker
    decreases |tests|
  {
    if tests == [] then NoMarker
    else if Contains(line, tests[0].0) then tests[0].1
    else FirstMatch(line, tests[1..])
  }

  /** The `if`/`elif` chain of the scan: which branch handles `line`. */
  function Classify(line: string): Marker
  {
    FirstMatch(line, MarkerTests)
  }

  /** Precedence of the marker tests: a line is handled by the first tag it
      contains in the order MAJOR, MINOR, VERSION, REVISION, and by one branch
      only. */
  lemma ClassifyPrecedence(line: string)
    ensures Classify(line) == MajorMarker <==> Contains(line, MajorTag)
    ensures Classify(line) == MinorMarker <==> !Contains(line, MajorTag) && Contains(line, MinorTag)
    ensures Classify(line) == VersionMarker <==>
      !Contains(line, MajorTag) && !Contains(line, MinorTag) && Contains(line, VersionTag)
    ensures Classify(line) == RevisionMarker <==>
      !Contains(line, MajorTag) && !Contains(line, MinorTag) && !Contains(line, VersionTag)
      && Contains(line, RevisionTag)
    ensures Classify(line) == NoMarker <==>
      !Contains(line, MajorTag) && !Contains(line, MinorTag) && !Contains(line, VersionTag)
      && !Contains(line, RevisionTag)
  {
    var t := MarkerTests;
    assert t[1..][1..][1..][1..] == [];
    assert FirstMatch(line, t[1..][1..][1..]) == if Contains(line, RevisionTag) then RevisionMarker else NoMarker;
    assert FirstMatch(line, t[1..][1..]) ==
      if Contains(line, VersionTag) then VersionMarker else FirstMatch(line, t[1..][1..][1..]);
    assert FirstMatch(line, t[1..]) ==
      if Contains(line, MinorTag) then MinorMarker else FirstMatch(line, t[1..][1..]);
  }

  /** The two exceptions `int(line.split("(")[1].split(")")[0])` can raise:
      IndexError when the line has no "(", ValueError when the text does not
      read as a number. */
  datatype ParseError = NoOpeningParen | NotANumber

  /** The number between the first "(" of a marker line and the next ")" (or the
      next "(", or the end of the line, whichever comes first). */
  function ParenValue(line: string): (r: Result<nat, ParseError>)
    ensures r == Failure(NoOpeningParen) <==> '(' !in line
  {
    OccurrencesPositive(line, '(');
    match SplitField(line, '(', 1)
    case None => Failure(NoOpeningParen)
    case Some(field) =>
      var inner := SplitField(field, ')', 0).value;
      match ParseDecimal(inner)
      case None => Failure(NotANumber)
      case Some(v) => Success(v)
  }

  /** The variables the scan updates: `major_version` and `minor_version` (the
      overrides, or the first value read from the file), `same_day` and
      `rev_number`. */
  datatype ScanState = ScanState(major: Option<int>, minor: Option<int>, sameDay: bool, rev: int)

  function InitialState(majorOverride: Option<int>, minorOverride: Option<int>): ScanState
  {
    ScanState(majorOverride, minorOverride, false, 0)
  }

  /** One iteration of the scan: the new state and the line written for `line`. */
  function Step(st: ScanState, line: string, code: string): Result<(ScanState, string), ParseError>
  {
    match Classify(line)
    case MajorMarker =>
      if st.major.None? then
        match ParenValue(line)
        case Failure(e) => Failure(e)
        case Success(v) => Success((st.(major := Some(v), rev := v), line))
      else Success((st, MarkerLine(MajorTag, IntToString(st.major.value))))
    case MinorMarker =>
      if st.minor.None? then
        match ParenValue(line)
        case Failure(e) => Failure(e)
        case Success(v) => Success((st.(minor := Some(v), rev := v), line))
      // the script formats the minor value with the MAJOR template
      else Success((st, MarkerLine(MajorTag, IntToString(st.minor.value))))
    case VersionMarker =>
      Success((st.(sameDay := st.sameDay || Contains(line, code)), MarkerLine(VersionTag, code)))
    case RevisionMarker =>
      if st.sameDay then
        match ParenValue(line)
        case Failure(e) => Failure(e)
        case Success(v) => Success((st.(rev := v + 1), MarkerLine(RevisionTag, IntToString(v + 1))))
      else Success((st, MarkerLine(RevisionTag, IntToString(st.rev))))
    case NoMarker => Success((st, line))
  }

  /** The exception that stops the scan, with the index of the line that raised it. */
  datatype ScanError = MalformedMarker(lineIndex: nat, reason: ParseError)

  /** The state after some lines and the lines written for them so far. */
  datatype Progress = Progress(state: ScanState, written: seq<string>)

  /** The scan over a whole file, one `Step` per line, stopping at the first error. */
  function Scan(lines: seq<string>, code: string, init: ScanState): Result<Progress, ScanError>
    decreases |lines|
  {
    if lines == [] then Success(Progress(init, []))
    else
      var n := |lines| - 1;
      match Scan(lines[..n], code, init)
      case Failure(e) => Failure(e)
      case Success(p) =>
        match Step(p.state, lines[n], code)
        case Failure(e) => Failure(MalformedMarker(n, e))
        case Success((st, line)) => Success(Progress(st, p.written + [line]))
  }

  /** Python's f-string rendering of `major_version` or `minor_version`, which is
      still `None` when there was neither an override nor a marker line. */
  function ShowVersion(v: Option<int>): string
  {
    match v
    case None => "None"
    case Some(i) => IntToString(i)
  }

  /** The printed version `major.minor.datecode.revision`. */
  function VersionString(st: ScanState, code: string): string
  {
    ShowVersion(st.major) + "." + ShowVersion(st.minor) + "." + code + "." + IntToString(st.rev)
  }

  /** The new file contents and the printed version. */
  datatype Rewritten = Rewritten(lines: seq<string>, version: string)

  /** What one run of the script does to a file read on `date`: either the new
      lines and the version, or the exception that leaves the file as it was. */
  function Update(lines: seq<string>, date: Date, majorOverride: Option<int>, minorOverride: Option<int>)
    : Result<Rewritten, ScanError>
  {
    var code := Code(date);
    match Scan(lines, code, InitialState(majorOverride, minorOverride))
    case Failure(e) => Failure(e)
    case Success(p) => Success(Rewritten(p.written, VersionString(p.state, code)))
  }

  /** An error before the last line is the error of the whole scan. */
  lemma ScanFailurePropagates(lines: seq<string>, code: string, init: ScanState)
    requires lines != [] && Scan(lines[..|lines| - 1], code, init).Failure?
    ensures Scan(lines, code, init) == Scan(lines[..|lines| - 1], code, init)
  {
  }

  /** An error in the first `k` lines is the error of the whole scan. */
  lemma {:induction false} ScanFailureExtends(lines: seq<string>, code: string, init: ScanState, k: nat)
    requires k <= |lines|
    requires Scan(lines[..k], code, init).Failure?
    ensures Scan(lines, code, init) == Scan(lines[..k], code, init)
    decreases |lines| - k
  {
    if k < |lines| {
      var next := lines[..k + 1];
      assert next[..k] == lines[..k];
      ScanFailurePropagates(next, code, init);
      ScanFailureExtends(lines, code, init, k + 1);
    } else {
      assert lines[..k] == lines;
    }
  }

  /** A non-empty sequence is its prefix followed by its last element. */
  lemma PrefixAndLast<T>(s: seq<T>)
    requires s != []
    ensures s[..|s| - 1] + [s[|s| - 1]] == s
  {
  }

  /** The scan over `ls + [x]` is the scan over `ls` followed by one step. */
  lemma ScanAppend(ls: seq<string>, x: string, code: string, init: ScanState,
                   p: Progress, st: ScanState, y: string)
    requires Scan(ls, code, init) == Success(p)
    requires Step(p.state, x, code) == Success((st, y))
    ensures Scan(ls + [x], code, init) == Success(Progress(st, p.written + [y]))
  {
    assert (ls + [x])[..|ls|] == ls;
  }

  /** The body of the scan loop for one line: the tests on the line, in the
      script's order, and the updates of the scan variables. */
  method RewriteLine(st: ScanState, line: string, code: string) returns (r: Result<(ScanState, string), ParseError>)
    ensures r == Step(st, line, code)
  {
    var major, minor, sameDay, rev := st.major, st.minor, st.sameDay, st.rev;
    var out := line;
    ClassifyPrecedence(line);
    if Contains(line, MajorTag) {
      if major.None? {
        var v := ParenValue(line);
        if v.Failure? {
          return Failure(v.error);
        }
        major, rev := Some(v.value), v.value;
      } else {
        out := MarkerLine(MajorTag, IntToString(major.value));
      }
    } else if Contains(line, MinorTag) {
      if minor.None? {
        var v := ParenValue(line);
        if v.Failure? {
          return Failure(v.error);
        }
        minor, rev := Some(v.value), v.value;
      } else {
        out := MarkerLine(MajorTag, IntToString(minor.value));
      }
    } else if Contains(line, VersionTag) {
      if Contains(line, code) {
        sameDay := true;
      }
      out := MarkerLine(VersionTag, code);
    } else if Contains(line, RevisionTag) {
      if sameDay {
        var v := ParenValue(line);
        if v.Failure? {
          return Failure(v.error);
        }
        rev := v.value + 1;
      }
      out := MarkerLine(RevisionTag, IntToString(rev));
    }
    r := Success((ScanState(major, minor, sameDay, rev), out));
  }

  /** The script's `main` from the date code to the printed version: the loop
      over the file's lines that updates the scan variables and collects the
      lines to write. */
  method UpdateVersion(lines: seq<string>, date: Date, majorOverride: Option<int>, minorOverride: Option<int>)
    returns (r: Result<Rewritten, ScanError>)
    ensures r == Update(lines, date, majorOverride, minorOverride)
  {
    var day := PadDay(NatToString(date.dayOfYear));
    var code := YearSuffix(date.year) + day;
    var st := InitialState(majorOverride, minorOverride);
    var written: seq<string> := [];
    ghost var init := st;
    for i := 0 to |lines|
      invariant Scan(lines[..i], code, init) == Success(Progress(st, written))
    {
      assert lines[..i + 1] == lines[..i] + [lines[i]];
      var step := RewriteLine(st, lines[i], code);
      if step.Failure? {
        ScanFailureExtends(lines, code, init, i + 1);
        return Failure(MalformedMarker(i, step.error));
      }
      ScanAppend(lines[..i], lines[i], code, init, Progress(st, written), step.value.0, step.value.1);
      st, written := step.value.0, written + [step.value.1];
    }
    assert lines[..|lines|] == lines;
    r := Success(Rewritten(written, VersionString(st, code)));
  }
}
