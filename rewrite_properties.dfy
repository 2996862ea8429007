/** What one run of the rewriter does to a file, stated over the whole file:
    which lines change and how, when `same_day` holds, which value the major,
    minor and revision take, and when the run fails. */
module RewriteProperties {
  import opened Wrappers
  import opened Text
  import opened DateCode
  import opened VersionRewriter

  /** The scan variables just before line `i` is read. */
  ghost function StateBefore(lines: seq<string>, code: string, init: ScanState, i: nat): ScanState
    requires i <= |lines| && Scan(lines[..i], code, init).Success?
  {
    Scan(lines[..i], code, init).value.state
  }

  /** The scan variables after the last line. */
  ghost function Final(lines: seq<string>, code: string, init: ScanState): ScanState
    requires Scan(lines, code, init).Success?
  {
    Scan(lines, code, init).value.state
  }

  lemma ScanPrefixSucceeds(lines: seq<string>, code: string, init: ScanState, k: nat)
    requires k <= |lines| && Scan(lines, code, init).Success?
    ensures Scan(lines[..k], code, init).Success?
  {
    if Scan(lines[..k], code, init).Failure? {
      ScanFailureExtends(lines, code, init, k);
    }
  }

  /** A scan that reaches the end writes exactly one line per line read. */
  lemma {:induction false} ScanLength(lines: seq<string>, code: string, init: ScanState)
    requires Scan(lines, code, init).Success?
    ensures |Scan(lines, code, init).value.written| == |lines|
    decreases |lines|
  {
    if lines != [] {
      ScanLength(lines[..|lines| - 1], code, init);
    }
  }

  /** The last line of a scan that reaches the end. */
  lemma ScanLast(lines: seq<string>, code: string, init: ScanState)
    requires lines != [] && Scan(lines, code, init).Success?
    ensures Scan(lines[..|lines| - 1], code, init).Success?
    ensures var p := Scan(lines[..|lines| - 1], code, init).value;
      && Step(p.state, lines[|lines| - 1], code).Success?
      && Scan(lines, code, init).value
         == Progress(Step(p.state, lines[|lines| - 1], code).value.0,
                     p.written + [Step(p.state, lines[|lines| - 1], code).value.1])
  {
  }

  /** How one successful `Step` changes each scan variable. */
  lemma StepFacts(st: ScanState, line: string, code: string)
    requires Step(st, line, code).Success?
    ensures ((Classify(line) == MajorMarker && st.major.None?)
             || (Classify(line) == MinorMarker && st.minor.None?)
             || (Classify(line) == RevisionMarker && st.sameDay)) ==> ParenValue(line).Success?
    ensures var st' := Step(st, line, code).value.0;
      && st'.major == (if Classify(line) == MajorMarker && st.major.None? then Some(ParenValue(line).value) else st.major)
      && st'.minor == (if Classify(line) == MinorMarker && st.minor.None? then Some(ParenValue(line).value) else st.minor)
      && st'.sameDay == (st.sameDay || (Classify(line) == VersionMarker && Contains(line, code)))
      && st'.rev == (if ((Classify(line) == MajorMarker && st.major.None?)
                         || (Classify(line) == MinorMarker && st.minor.None?))
                     then ParenValue(line).value
                     else if Classify(line) == RevisionMarker && st.sameDay then ParenValue(line).value + 1
                     else st.rev)
  {
  }

  /** Line `i` of the output is what `Step` writes for line `i` of the input, from
      the state the earlier lines left; the state after it is the state before
      line `i + 1`. */
  lemma {:induction false} ScanLineByLine(lines: seq<string>, code: string, init: ScanState, i: nat)
    requires Scan(lines, code, init).Success? && i < |lines|
    ensures Scan(lines[..i], code, init).Success? && Scan(lines[..i + 1], code, init).Success?
    ensures |Scan(lines, code, init).value.written| == |lines|
    ensures Step(StateBefore(lines, code, init, i), lines[i], code)
         == Success((StateBefore(lines, code, init, i + 1), Scan(lines, code, init).value.written[i]))
    decreases |lines|
  {
    ScanLength(lines, code, init);
    ScanLast(lines, code, init);
    var n := |lines| - 1;
    if i == n {
      assert lines[..i + 1] == lines;
      ScanLength(lines[..n], code, init);
    } else {
      assert lines[..n][..i] == lines[..i];
      assert lines[..n][..i + 1] == lines[..i + 1];
      ScanLineByLine(lines[..n], code, init, i);
    }
  }

  /** The index of the first line handled as marker `m`, or `|lines|` if none is. */
  function FirstIndex(lines: seq<string>, m: Marker): (f: nat)
    ensures f <= |lines|
    ensures f < |lines| ==> Classify(lines[f]) == m
    ensures forall j :: 0 <= j < f ==> Classify(lines[j]) != m
  {
    if lines == [] then 0
    else if Classify(lines[0]) == m then 0
    else 1 + FirstIndex(lines[1..], m)
  }

  lemma FirstIndexPrefix(lines: seq<string>, m: Marker, k: nat)
    requires k <= |lines|
    ensures FirstIndex(lines[..k], m) == if FirstIndex(lines, m) < k then FirstIndex(lines, m) else k
  {
    var f, g := FirstIndex(lines, m), FirstIndex(lines[..k], m);
    if g < k {
      assert lines[..k][g] == lines[g];
    }
    if f < k {
      assert lines[..k][f] == lines[f];
    }
  }

  /** `major_version` for `MajorMarker`, `minor_version` for `MinorMarker`. */
  function Carried(st: ScanState, m: Marker): Option<int>
    requires m == MajorMarker || m == MinorMarker
  {
    if m == MajorMarker then st.major else st.minor
  }

  /** The reported major (minor) version: the override when there is one;
      otherwise the value of the FIRST major (minor) marker line, since after it
      the variable is no longer `None`; `None` when the file has no such line. */
  lemma {:induction false} CarriedVersion(lines: seq<string>, code: string, init: ScanState, m: Marker)
    requires m == MajorMarker || m == MinorMarker
    requires Scan(lines, code, init).Success?
    ensures Carried(init, m).Some? ==> Carried(Final(lines, code, init), m) == Carried(init, m)
    ensures Carried(init, m).None? && FirstIndex(lines, m) == |lines| ==>
      Carried(Final(lines, code, init), m) == None
    ensures Carried(init, m).None? && FirstIndex(lines, m) < |lines| ==>
      ParenValue(lines[FirstIndex(lines, m)]).Success?
      && Carried(Final(lines, code, init), m) == Some(ParenValue(lines[FirstIndex(lines, m)]).value)
    decreases |lines|
  {
    if lines != [] {
      var n := |lines| - 1;
      var L := lines[..n];
      ScanLast(lines, code, init);
      var st := Final(L, code, init);
      CarriedStep(st, lines[n], code, m);
      assert Carried(Final(lines, code, init), m) == Carried(Step(st, lines[n], code).value.0, m);
      CarriedVersion(L, code, init, m);
      FirstIndexPrefix(lines, m, n);
      var f := FirstIndex(lines, m);
      if Carried(init, m).None? {
        if f < n {
          assert L[f] == lines[f];
          assert Carried(st, m) == Some(ParenValue(lines[f]).value);
        } else if f == n {
          assert Carried(st, m) == None && Classify(lines[n]) == m;
        } else {
          assert Carried(st, m) == None && Classify(lines[n]) != m;
        }
      }
    }
  }

  /** One step sets the major (minor) version only on a major (minor) marker
      line met while it is still `None`. */
  lemma CarriedStep(st: ScanState, line: string, code: string, m: Marker)
    requires m == MajorMarker || m == MinorMarker
    requires Step(st, line, code).Success?
    ensures Classify(line) == m && Carried(st, m).None? ==> ParenValue(line).Success?
    ensures Carried(Step(st, line, code).value.0, m) ==
      if Classify(line) == m && Carried(st, m).None? then Some(ParenValue(line).value) else Carried(st, m)
  {
    StepFacts(st, line, code);
  }

  /** The marker line written for a major (minor) marker line: the first one is
      kept when there is no override; every other one is rewritten with the MAJOR
      template and the reported major (minor) value. */
  lemma CarriedLine(lines: seq<string>, code: string, init: ScanState, m: Marker, i: nat)
    requires m == MajorMarker || m == MinorMarker
    requires Scan(lines, code, init).Success? && i < |lines| && Classify(lines[i]) == m
    ensures |Scan(lines, code, init).value.written| == |lines|
    ensures Carried(init, m).None? && i == FirstIndex(lines, m) ==>
      Scan(lines, code, init).value.written[i] == lines[i]
    ensures Carried(init, m).Some? || i != FirstIndex(lines, m) ==>
      Carried(Final(lines, code, init), m).Some?
      && Scan(lines, code, init).value.written[i]
         == MarkerLine(MajorTag, IntToString(Carried(Final(lines, code, init), m).value))
  {
    ScanLineByLine(lines, code, init, i);
    CarriedVersion(lines[..i], code, init, m);
    CarriedVersion(lines, code, init, m);
    FirstIndexPrefix(lines, m, i);
    var f := FirstIndex(lines, m);
    if f < i {
      assert lines[..i][f] == lines[f];
    }
  }

  /** Some line before index `j` is a date marker line that contains `code`. */
  ghost predicate SameDayBefore(lines: seq<string>, code: string, j: int)
  {
    exists k :: 0 <= k < j && k < |lines| && Classify(lines[k]) == VersionMarker && Contains(lines[k], code)
  }

  /** `same_day` ends up set exactly when some date marker line contains the new
      date code; nothing clears it. */
  lemma {:induction false} SameDayIff(lines: seq<string>, code: string, init: ScanState)
    requires Scan(lines, code, init).Success?
    ensures Final(lines, code, init).sameDay <==> init.sameDay || SameDayBefore(lines, code, |lines|)
    decreases |lines|
  {
    if lines != [] {
      var n := |lines| - 1;
      var prefix := lines[..n];
      ScanLast(lines, code, init);
      var st := Final(prefix, code, init);
      StepFacts(st, lines[n], code);
      SameDayIff(prefix, code, init);
      SameDayBeforeLast(lines, code);
    }
  }

  /** Whether a date marker line before the end contains `code`, split at the
      last line. */
  lemma SameDayBeforeLast(lines: seq<string>, code: string)
    requires lines != []
    ensures var n := |lines| - 1;
      SameDayBefore(lines, code, |lines|) <==>
        SameDayBefore(lines[..n], code, n) || (Classify(lines[n]) == VersionMarker && Contains(lines[n], code))
  {
    var n := |lines| - 1;
    if SameDayBefore(lines[..n], code, n) {
      var k :| 0 <= k < n && k < |lines[..n]| && Classify(lines[..n][k]) == VersionMarker && Contains(lines[..n][k], code);
      assert lines[k] == lines[..n][k];
    }
    if SameDayBefore(lines, code, |lines|) {
      var k :| 0 <= k < |lines| && Classify(lines[k]) == VersionMarker && Contains(lines[k], code);
      if k < n {
        assert lines[k] == lines[..n][k];
      }
    }
  }

  /** Once `same_day` holds after some lines it still holds at the end. */
  lemma SameDayNeverResets(lines: seq<string>, code: string, init: ScanState, k: nat)
    requires Scan(lines, code, init).Success? && k <= |lines|
    ensures Scan(lines[..k], code, init).Success?
    ensures StateBefore(lines, code, init, k).sameDay ==> Final(lines, code, init).sameDay
  {
    ScanPrefixSucceeds(lines, code, init, k);
    SameDayIff(lines[..k], code, init);
    SameDayIff(lines, code, init);
    if SameDayBefore(lines[..k], code, k) {
      var j :| 0 <= j < k && Classify(lines[..k][j]) == VersionMarker && Contains(lines[..k][j], code);
      assert lines[j] == lines[..k][j];
    }
  }

  lemma SameDayBeforePrefix(lines: seq<string>, code: string, k: nat, j: int)
    requires j <= k <= |lines|
    ensures SameDayBefore(lines[..k], code, j) <==> SameDayBefore(lines, code, j)
  {
    if SameDayBefore(lines[..k], code, j) {
      var t :| 0 <= t < j && t < k && Classify(lines[..k][t]) == VersionMarker && Contains(lines[..k][t], code);
      assert lines[t] == lines[..k][t];
    }
    if SameDayBefore(lines, code, j) {
      var t :| 0 <= t < j && t < |lines| && Classify(lines[t]) == VersionMarker && Contains(lines[t], code);
      assert lines[t] == lines[..k][t];
    }
  }

  /** Line `j` assigns `rev_number`: it is the first major (minor) marker line and
      there is no major (minor) override, or it is a revision marker line read
      once `same_day` holds. */
  ghost predicate SetsRevision(lines: seq<string>, code: string, init: ScanState, j: int)
  {
    0 <= j < |lines| &&
    match Classify(lines[j])
    case MajorMarker => init.major.None? && j == FirstIndex(lines, MajorMarker)
    case MinorMarker => init.minor.None? && j == FirstIndex(lines, MinorMarker)
    case RevisionMarker => init.sameDay || SameDayBefore(lines, code, j)
    case _ => false
  }

  lemma SetsRevisionPrefix(lines: seq<string>, code: string, init: ScanState, k: nat, j: int)
    requires 0 <= j < k <= |lines|
    ensures SetsRevision(lines[..k], code, init, j) <==> SetsRevision(lines, code, init, j)
  {
    assert lines[..k][j] == lines[j];
    FirstIndexPrefix(lines, MajorMarker, k);
    FirstIndexPrefix(lines, MinorMarker, k);
    SameDayBeforePrefix(lines, code, k, j);
  }

  /** The last line before index `k` that assigns `rev_number`, or -1. */
  ghost function LastSetter(lines: seq<string>, code: string, init: ScanState, k: nat): (j: int)
    requires k <= |lines|
    ensures -1 <= j < k
    ensures j >= 0 ==> SetsRevision(lines, code, init, j)
    ensures forall t :: j < t < k ==> !SetsRevision(lines, code, init, t)
  {
    if k == 0 then -1
    else if SetsRevision(lines, code, init, k - 1) then k - 1
    else LastSetter(lines, code, init, k - 1)
  }

  lemma {:induction false} LastSetterPrefix(lines: seq<string>, code: string, init: ScanState, k: nat, b: nat)
    requires b <= k <= |lines|
    ensures LastSetter(lines[..k], code, init, b) == LastSetter(lines, code, init, b)
    decreases b
  {
    if b > 0 {
      SetsRevisionPrefix(lines, code, init, k, b - 1);
      LastSetterPrefix(lines, code, init, k, b - 1);
    }
  }

  /** The value a setting line gives `rev_number`: its number, plus one on a
      revision marker line. (A line whose number does not parse stops the scan
      before it sets anything; 0 stands in for that case.) */
  function SetValue(line: string): int
  {
    match ParenValue(line)
    case Success(v) => if Classify(line) == RevisionMarker then v + 1 else v
    case Failure(_) => 0
  }

  /** `rev_number` after the first `k` lines: set by the last line that assigns
      it, or still its initial value. */
  ghost function RevisionAfter(lines: seq<string>, code: string, init: ScanState, k: nat): int
    requires k <= |lines|
  {
    var j := LastSetter(lines, code, init, k);
    if j < 0 then init.rev else SetValue(lines[j])
  }

  /** The last line of a file changes `rev_number` exactly when it is a line
      that assigns it, and then to its `SetValue`. */
  lemma LastLineRevision(lines: seq<string>, code: string, init: ScanState)
    requires lines != [] && Scan(lines, code, init).Success?
    ensures Scan(lines[..|lines| - 1], code, init).Success?
    ensures Final(lines, code, init).rev ==
      if SetsRevision(lines, code, init, |lines| - 1) then SetValue(lines[|lines| - 1])
      else Final(lines[..|lines| - 1], code, init).rev
  {
    var n := |lines| - 1;
    var L := lines[..n];
    ScanLast(lines, code, init);
    match Classify(lines[n])
    case MajorMarker =>
      CarriedVersion(L, code, init, MajorMarker);
      FirstIndexPrefix(lines, MajorMarker, n);
    case MinorMarker =>
      CarriedVersion(L, code, init, MinorMarker);
      FirstIndexPrefix(lines, MinorMarker, n);
    case RevisionMarker =>
      SameDayIff(L, code, init);
      SameDayBeforePrefix(lines, code, n, n);
    case VersionMarker =>
    case NoMarker =>
  }

  lemma RevisionAfterPrefix(lines: seq<string>, code: string, init: ScanState, k: nat)
    requires k <= |lines|
    ensures RevisionAfter(lines[..k], code, init, k) == RevisionAfter(lines, code, init, k)
  {
    LastSetterPrefix(lines, code, init, k, k);
    var j := LastSetter(lines, code, init, k);
    if j >= 0 {
      assert lines[..k][j] == lines[j];
    }
  }

  lemma RevisionAfterStep(lines: seq<string>, code: string, init: ScanState, k: nat)
    requires k < |lines|
    ensures RevisionAfter(lines, code, init, k + 1) ==
      if SetsRevision(lines, code, init, k) then SetValue(lines[k]) else RevisionAfter(lines, code, init, k)
  {
  }

  /** The reported revision is the value given by the last line that assigns
      `rev_number`: a kept major or minor marker, or a revision marker on the
      same day. */
  lemma {:induction false} FinalRevision(lines: seq<string>, code: string, init: ScanState)
    requires Scan(lines, code, init).Success?
    ensures Final(lines, code, init).rev == RevisionAfter(lines, code, init, |lines|)
    decreases |lines|
  {
    if lines != [] {
      var n := |lines| - 1;
      LastLineRevision(lines, code, init);
      FinalRevision(lines[..n], code, init);
      RevisionAfterPrefix(lines, code, init, n);
      RevisionAfterStep(lines, code, init, n);
    }
  }

  /** The revision marker line: one more than its own number once `same_day`
      holds, otherwise the current `rev_number`. */
  lemma RevisionLine(lines: seq<string>, code: string, init: ScanState, i: nat)
    requires Scan(lines, code, init).Success? && i < |lines| && Classify(lines[i]) == RevisionMarker
    ensures |Scan(lines, code, init).value.written| == |lines|
    ensures init.sameDay || SameDayBefore(lines, code, i) ==>
      ParenValue(lines[i]).Success?
      && Scan(lines, code, init).value.written[i]
         == MarkerLine(RevisionTag, IntToString(ParenValue(lines[i]).value + 1))
    ensures !(init.sameDay || SameDayBefore(lines, code, i)) ==>
      Scan(lines, code, init).value.written[i]
      == MarkerLine(RevisionTag, IntToString(RevisionAfter(lines, code, init, i)))
  {
    ScanLineByLine(lines, code, init, i);
    SameDayIff(lines[..i], code, init);
    SameDayBeforePrefix(lines, code, i, i);
    FinalRevision(lines[..i], code, init);
    LastSetterPrefix(lines, code, init, i, i);
  }

  /** Where a scan fails: at a major, minor or revision marker line whose number
      `int()` was asked to read and could not, all earlier lines having passed. */
  lemma {:induction false} ScanFailure(lines: seq<string>, code: string, init: ScanState)
    requires Scan(lines, code, init).Failure?
    ensures var e := Scan(lines, code, init).error;
      && e.lineIndex < |lines|
      && Scan(lines[..e.lineIndex], code, init).Success?
      && Step(StateBefore(lines, code, init, e.lineIndex), lines[e.lineIndex], code) == Failure(e.reason)
      && ParenValue(lines[e.lineIndex]) == Failure(e.reason)
      && Classify(lines[e.lineIndex]) in {MajorMarker, MinorMarker, RevisionMarker}
    decreases |lines|
  {
    var n := |lines| - 1;
    var prefix := lines[..n];
    if Scan(prefix, code, init).Failure? {
      ScanFailure(prefix, code, init);
      ScanFailurePropagates(lines, code, init);
      var i := Scan(prefix, code, init).error.lineIndex;
      assert prefix[..i] == lines[..i];
      assert prefix[i] == lines[i];
    } else {
      var st := Scan(prefix, code, init).value.state;
      assert Step(st, lines[n], code).Failure?;
      StepFailure(st, lines[n], code);
      assert Scan(lines, code, init) == Failure(MalformedMarker(n, Step(st, lines[n], code).error));
    }
  }

  /** A step fails only on a major, minor or revision marker line whose number
      `int()` cannot read, with that error. */
  lemma StepFailure(st: ScanState, line: string, code: string)
    requires Step(st, line, code).Failure?
    ensures ParenValue(line) == Failure(Step(st, line, code).error)
    ensures Classify(line) in {MajorMarker, MinorMarker, RevisionMarker}
  {
  }

  /** The reported major (minor) version of a run: the override, or what `int()`
      reads from the first major (minor) marker line, or `None`. */
  function Reported(lines: seq<string>, override: Option<int>, m: Marker): Option<int>
  {
    if override.Some? then override
    else
      var f := FirstIndex(lines, m);
      if f == |lines| then None
      else match ParenValue(lines[f])
        case Success(v) => Some(v)
        case Failure(_) => None
  }

  /** A run is the scan from the initial state, with the version string built
      from the final state. */
  lemma UpdateIsScan(lines: seq<string>, date: Date, majorOverride: Option<int>, minorOverride: Option<int>)
    ensures var scan := Scan(lines, Code(date), InitialState(majorOverride, minorOverride));
      && (Update(lines, date, majorOverride, minorOverride).Success? <==> scan.Success?)
      && (scan.Success? ==> Update(lines, date, majorOverride, minorOverride).value
                            == Rewritten(scan.value.written, VersionString(scan.value.state, Code(date))))
      && (scan.Failure? ==> Update(lines, date, majorOverride, minorOverride).error == scan.error)
  {
  }

  /** The lines one successful run writes: one output line per input line, in
      order; lines without a marker unchanged; every date marker line replaced
      by the line holding the new date code. */
  lemma UpdateRewritesLines(lines: seq<string>, date: Date, majorOverride: Option<int>, minorOverride: Option<int>)
    requires Update(lines, date, majorOverride, minorOverride).Success?
    ensures var out := Update(lines, date, majorOverride, minorOverride).value.lines;
      && |out| == |lines|
      && (forall i :: 0 <= i < |lines| && Classify(lines[i]) == NoMarker ==> out[i] == lines[i])
      && (forall i :: 0 <= i < |lines| && Classify(lines[i]) == VersionMarker ==>
            out[i] == MarkerLine(VersionTag, Code(date)))
  {
    var code, init := Code(date), InitialState(majorOverride, minorOverride);
    UpdateIsScan(lines, date, majorOverride, minorOverride);
    var out := Scan(lines, code, init).value.written;
    ScanLength(lines, code, init);
    forall i | 0 <= i < |lines|
      ensures Classify(lines[i]) == NoMarker ==> out[i] == lines[i]
      ensures Classify(lines[i]) == VersionMarker ==> out[i] == MarkerLine(VersionTag, code)
    {
      ScanLineByLine(lines, code, init, i);
      StepWritten(StateBefore(lines, code, init, i), lines[i], code);
    }
  }

  /** The line a successful step writes for an unmarked line and for a date
      marker line. */
  lemma StepWritten(st: ScanState, line: string, code: string)
    requires Step(st, line, code).Success?
    ensures Classify(line) == NoMarker ==> Step(st, line, code).value.1 == line
    ensures Classify(line) == VersionMarker ==> Step(st, line, code).value.1 == MarkerLine(VersionTag, code)
  {
  }

  /** The major (minor) marker lines one successful run writes: with an override,
      every one becomes the MAJOR template holding the override; without, the
      first one is kept and every later one becomes the MAJOR template holding
      the first one's value. */
  lemma UpdateCarriedLines(lines: seq<string>, date: Date, majorOverride: Option<int>,
                           minorOverride: Option<int>, m: Marker)
    requires m == MajorMarker || m == MinorMarker
    requires Update(lines, date, majorOverride, minorOverride).Success?
    ensures var out := Update(lines, date, majorOverride, minorOverride).value.lines;
      var override := Carried(InitialState(majorOverride, minorOverride), m);
      && |out| == |lines|
      && forall i :: 0 <= i < |lines| && Classify(lines[i]) == m ==>
           && Reported(lines, override, m).Some?
           && out[i] == if override.None? && i == FirstIndex(lines, m) then lines[i]
                        else MarkerLine(MajorTag, IntToString(Reported(lines, override, m).value))
  {
    var code, init := Code(date), InitialState(majorOverride, minorOverride);
    UpdateIsScan(lines, date, majorOverride, minorOverride);
    var out := Scan(lines, code, init).value.written;
    var override := Carried(init, m);
    ScanLength(lines, code, init);
    CarriedVersion(lines, code, init, m);
    forall i | 0 <= i < |lines| && Classify(lines[i]) == m
      ensures Reported(lines, override, m).Some?
      ensures out[i] == if override.None? && i == FirstIndex(lines, m) then lines[i]
                        else MarkerLine(MajorTag, IntToString(Reported(lines, override, m).value))
    {
      CarriedLine(lines, code, init, m, i);
    }
  }

  /** The printed version of one successful run: reported major, reported minor,
      the new date code and the final `rev_number`, joined by dots. */
  lemma UpdateReportsVersion(lines: seq<string>, date: Date, majorOverride: Option<int>, minorOverride: Option<int>)
    requires Update(lines, date, majorOverride, minorOverride).Success?
    ensures Update(lines, date, majorOverride, minorOverride).value.version
      == ShowVersion(Reported(lines, majorOverride, MajorMarker)) + "."
         + ShowVersion(Reported(lines, minorOverride, MinorMarker)) + "."
         + Code(date) + "."
         + IntToString(RevisionAfter(lines, Code(date), InitialState(majorOverride, minorOverride), |lines|))
  {
    var code, init := Code(date), InitialState(majorOverride, minorOverride);
    UpdateIsScan(lines, date, majorOverride, minorOverride);
    CarriedVersion(lines, code, init, MajorMarker);
    CarriedVersion(lines, code, init, MinorMarker);
    FinalRevision(lines, code, init);
  }

  /** A failed run (after which the file is left as it was) names a major, minor
      or revision marker line whose number could not be read: IndexError exactly
      when the line has no "(". */
  lemma UpdateFailure(lines: seq<string>, date: Date, majorOverride: Option<int>, minorOverride: Option<int>)
    requires Update(lines, date, majorOverride, minorOverride).Failure?
    ensures var e := Update(lines, date, majorOverride, minorOverride).error;
      && e.lineIndex < |lines|
      && Classify(lines[e.lineIndex]) in {MajorMarker, MinorMarker, RevisionMarker}
      && ParenValue(lines[e.lineIndex]) == Failure(e.reason)
      && (e.reason == NoOpeningParen <==> '(' !in lines[e.lineIndex])
  {
    UpdateIsScan(lines, date, majorOverride, minorOverride);
    ScanFailure(lines, Code(date), InitialState(majorOverride, minorOverride));
  }

  /** Without an override, a first major (minor) marker line that has no "(" makes
      the run fail, at that line or earlier. */
  lemma UnparsableFirstMarkerFails(lines: seq<string>, date: Date, majorOverride: Option<int>,
                                   minorOverride: Option<int>, m: Marker)
    requires m == MajorMarker || m == MinorMarker
    requires Carried(InitialState(majorOverride, minorOverride), m).None?
    requires FirstIndex(lines, m) < |lines| && '(' !in lines[FirstIndex(lines, m)]
    ensures Update(lines, date, majorOverride, minorOverride).Failure?
    ensures Update(lines, date, majorOverride, minorOverride).error.lineIndex <= FirstIndex(lines, m)
  {
    ScanStopsAtUnparsableFirst(lines, Code(date), InitialState(majorOverride, minorOverride), m);
    UpdateIsScan(lines, date, majorOverride, minorOverride);
  }

  /** The scan stops with an error at or before the first major (minor) marker
      line without "(", when the variable is still `None` there. */
  lemma ScanStopsAtUnparsableFirst(lines: seq<string>, code: string, init: ScanState, m: Marker)
    requires m == MajorMarker || m == MinorMarker
    requires Carried(init, m).None?
    requires FirstIndex(lines, m) < |lines| && '(' !in lines[FirstIndex(lines, m)]
    ensures Scan(lines, code, init).Failure?
    ensures Scan(lines, code, init).error.lineIndex <= FirstIndex(lines, m)
  {
    var f := FirstIndex(lines, m);
    if Scan(lines[..f], code, init).Failure? {
      ScanFailureExtends(lines, code, init, f);
      ScanFailure(lines[..f], code, init);
    } else {
      UnparsableFirstStep(lines, code, init, m);
      ScanFailureExtends(lines, code, init, f + 1);
    }
  }

  /** When the lines before it scan without error, the scan stops at the first
      major (minor) marker line without "(". */
  lemma UnparsableFirstStep(lines: seq<string>, code: string, init: ScanState, m: Marker)
    requires m == MajorMarker || m == MinorMarker
    requires Carried(init, m).None?
    requires FirstIndex(lines, m) < |lines| && '(' !in lines[FirstIndex(lines, m)]
    requires Scan(lines[..FirstIndex(lines, m)], code, init).Success?
    ensures Scan(lines[..FirstIndex(lines, m) + 1], code, init) ==
      Failure(MalformedMarker(FirstIndex(lines, m), NoOpeningParen))
  {
    var f := FirstIndex(lines, m);
    FirstIndexPrefix(lines, m, f);
    CarriedVersion(lines[..f], code, init, m);
    var st := Scan(lines[..f], code, init).value.state;
    UnreadableStepFails(st, lines[f], code, m);
    assert lines[..f + 1][..f] == lines[..f];
  }

  /** The step over a major (minor) marker line with no "(" fails while the
      major (minor) version is still unknown. */
  lemma UnreadableStepFails(st: ScanState, line: string, code: string, m: Marker)
    requires m == MajorMarker || m == MinorMarker
    requires Classify(line) == m && Carried(st, m).None? && '(' !in line
    ensures Step(st, line, code) == Failure(NoOpeningParen)
  {
    assert ParenValue(line) == Failure(NoOpeningParen);
  }

  /** Lines without markers are copied and leave the scan variables alone. */
  lemma {:induction false} ScanUnmarked(lines: seq<string>, code: string, init: ScanState)
    requires forall i :: 0 <= i < |lines| ==> Classify(lines[i]) == NoMarker
    ensures Scan(lines, code, init) == Success(Progress(init, lines))
    decreases |lines|
  {
    if lines != [] {
      var n := |lines| - 1;
      var prefix := lines[..n];
      forall i | 0 <= i < n
        ensures Classify(prefix[i]) == NoMarker
      {
        assert prefix[i] == lines[i];
      }
      ScanUnmarked(prefix, code, init);
      ScanAppendUnmarked(prefix, lines[n], code, init);
      PrefixAndLast(lines);
    }
  }

  /** An unmarked line appended to lines scanned without change is copied too. */
  lemma ScanAppendUnmarked(prefix: seq<string>, x: string, code: string, init: ScanState)
    requires Scan(prefix, code, init) == Success(Progress(init, prefix))
    requires Classify(x) == NoMarker
    ensures Scan(prefix + [x], code, init) == Success(Progress(init, prefix + [x]))
  {
    StepOnUnmarked(init, x, code);
    ScanAppend(prefix, x, code, init, Progress(init, prefix), init, x);
  }

  /** A line without a marker is written unchanged and changes no variable. */
  lemma StepOnUnmarked(st: ScanState, line: string, code: string)
    requires Classify(line) == NoMarker
    ensures Step(st, line, code) == Success((st, line))
  {
  }

  /** A file without marker lines is written back unchanged, and the run reports
      the overrides (or `None`), the date code and revision 0. */
  lemma UnmarkedFileUnchanged(lines: seq<string>, date: Date, majorOverride: Option<int>, minorOverride: Option<int>)
    requires forall i :: 0 <= i < |lines| ==> Classify(lines[i]) == NoMarker
    ensures Update(lines, date, majorOverride, minorOverride)
      == Success(Rewritten(lines, ShowVersion(majorOverride) + "." + ShowVersion(minorOverride) + "."
                                  + Code(date) + ".0"))
  {
    var code, init := Code(date), InitialState(majorOverride, minorOverride);
    ScanUnmarked(lines, code, init);
    assert IntToString(0) == "0";
    assert VersionString(init, code) == ShowVersion(majorOverride) + "." + ShowVersion(minorOverride) + "." + code + ".0";
  }
}
