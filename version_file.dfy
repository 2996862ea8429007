/** A header in the layout the script documents and writes: the four marker
    lines, each `"    <tag> (<number>)\n"`, in the order MAJOR, MINOR, VERSION,
    REVISION. What a run, and a second run, do to such a header. */
module VersionFile {
  import opened Wrappers
  import opened Text
  import opened DateCode
  import opened VersionRewriter

  function Header(major: string, minor: string, code: string, revision: string): seq<string>
  {
    [MarkerLine(MajorTag, major), MarkerLine(MinorTag, minor),
     MarkerLine(VersionTag, code), MarkerLine(RevisionTag, revision)]
  }

  /** In a marker line whose value has no "#", the only "#" is the tag's first
      character, just after the four-space indent. */
  lemma HashOnlyAtIndent(tag: string, x: string)
    requires tag in {MajorTag, MinorTag, VersionTag, RevisionTag} && '#' !in x
    ensures forall j :: 0 <= j < |MarkerLine(tag, x)| && j != 4 ==> MarkerLine(tag, x)[j] != '#'
  {
    var L := MarkerLine(tag, x);
    var p := "    " + tag + " (";
    assert L == p + x + ")\n";
    assert forall k :: 1 <= k < |tag| ==> tag[k] != '#';
    forall j | 0 <= j < |L| && j != 4 ensures L[j] != '#' {
      if j < |p| {
        assert L[j] == p[j];
        if 4 < j < 4 + |tag| {
          assert p[j] == tag[j - 4];
        }
      } else if j < |p| + |x| {
        assert L[j] == x[j - |p|];
      } else {
        assert L[j] == (")\n")[j - |p| - |x|];
      }
    }
  }

  /** The four tags start with "#" and differ from one another in their twelfth
      or thirteenth character ("MA", "MI", "VE", "RE"). */
  lemma TagsDiffer(tag: string, t: string)
    requires tag in {MajorTag, MinorTag, VersionTag, RevisionTag}
    requires t in {MajorTag, MinorTag, VersionTag, RevisionTag}
    ensures |tag| > 12 && |t| > 12 && t[0] == '#'
    ensures tag != t ==> tag[11] != t[11] || tag[12] != t[12]
  {
  }

  /** A marker line written by the script contains its own tag and no other. */
  lemma MarkerLineContains(tag: string, x: string, t: string)
    requires tag in {MajorTag, MinorTag, VersionTag, RevisionTag}
    requires t in {MajorTag, MinorTag, VersionTag, RevisionTag}
    requires '#' !in x
    ensures Contains(MarkerLine(tag, x), t) <==> t == tag
  {
    var L := MarkerLine(tag, x);
    TagAtIndent(tag, x);
    TagsDiffer(tag, t);
    if t == tag {
      assert OccursAt(L, t, 4);
    } else {
      HashOnlyAtIndent(tag, x);
      MarkerLineLacksTag(L, tag, t);
    }
  }

  /** The tag of a marker line starts after the four-space indent. */
  lemma TagAtIndent(tag: string, x: string)
    ensures 4 + |tag| <= |MarkerLine(tag, x)| && MarkerLine(tag, x)[4..4 + |tag|] == tag
  {
    var L := MarkerLine(tag, x);
    assert L == "    " + tag + " (" + x + ")\n";
  }

  /** No position of a marker line for `tag` holds another tag `t`: away from the
      indent the "#" is missing, at the indent the two tags differ. */
  lemma MarkerLineLacksTag(L: string, tag: string, t: string)
    requires |tag| > 12 && |t| > 12 && t[0] == '#' && (tag[11] != t[11] || tag[12] != t[12])
    requires 4 + |tag| <= |L| && L[4..4 + |tag|] == tag
    requires forall j :: 0 <= j < |L| && j != 4 ==> L[j] != '#'
    ensures !Contains(L, t)
  {
    forall i ensures !OccursAt(L, t, i) {
      if 0 <= i <= |L| - |t| && i != 4 {
        assert L[i..i + |t|][0] == L[i];
      } else if 0 <= i <= |L| - |t| {
        assert L[i..i + |t|][11] == tag[11] && L[i..i + |t|][12] == tag[12];
      }
    }
  }

  /** The tag of the lines the scan handles in branch `m`. */
  function TagFor(m: Marker): string
    requires m != NoMarker
  {
    match m
    case MajorMarker => MajorTag
    case MinorMarker => MinorTag
    case VersionMarker => VersionTag
    case RevisionMarker => RevisionTag
  }

  lemma TagsOfMarkers()
    ensures TagFor(MajorMarker) == MajorTag && TagFor(MinorMarker) == MinorTag
    ensures TagFor(VersionMarker) == VersionTag && TagFor(RevisionMarker) == RevisionTag
  {
  }

  /** The branch that handles a marker line written by the script is its tag's. */
  lemma ClassifyMarkerLine(tag: string, m: Marker, x: string)
    requires m != NoMarker && tag == TagFor(m) && '#' !in x
    ensures Classify(MarkerLine(tag, x)) == m
  {
    MarkerLineContains(tag, x, MajorTag);
    MarkerLineContains(tag, x, MinorTag);
    MarkerLineContains(tag, x, VersionTag);
    MarkerLineContains(tag, x, RevisionTag);
    ClassifyPrecedence(MarkerLine(tag, x));
  }

  /** The first `c` in `p + [c] + rest` is the one after `p` when `p` has none. */
  lemma FindAfter(p: string, c: char, rest: string)
    requires c !in p
    ensures Find(p + [c] + rest, c) == |p|
  {
    var s := p + [c] + rest;
    assert s[|p|] == c;
    assert forall j :: 0 <= j < |p| ==> s[j] == p[j];
  }

  /** `(p + [c] + rest).split(c)[1]` is `rest.split(c)[0]` when `p` has no `c`. */
  lemma SecondFieldAfter(p: string, c: char, rest: string)
    requires c !in p
    ensures SplitField(p + [c] + rest, c, 1) == SplitField(rest, c, 0)
  {
    FindAfter(p, c, rest);
    assert (p + [c] + rest)[|p| + 1..] == rest;
  }

  /** A run of digits holds neither parenthesis nor "#". */
  lemma DigitsHaveNoParens(x: string)
    requires AllDigits(x)
    ensures ')' !in x && '#' !in x
    ensures '(' !in x + [')'] + "\n"
  {
    var rest := x + [')'] + "\n";
    forall j | 0 <= j < |rest| ensures rest[j] != '(' && (j < |x| ==> rest[j] != ')' && rest[j] != '#') {
      if j < |x| {
        assert rest[j] == x[j] && IsDigit(x[j]);
      }
    }
    assert forall j :: 0 <= j < |x| ==> x[j] == rest[j];
  }

  /** `(x + [c] + tail).split(c)[0]` is `x` when `x` has no `c`. */
  lemma FirstFieldBefore(x: string, c: char, tail: string)
    requires c !in x
    ensures SplitField(x + [c] + tail, c, 0) == Some(x)
  {
    FindAfter(x, c, tail);
    assert (x + [c] + tail)[..|x|] == x;
  }

  /** `s.split(c)[0]` is all of `s` when `s` has no `c`. */
  lemma WholeField(s: string, c: char)
    requires c !in s
    ensures SplitField(s, c, 0) == Some(s)
  {
    assert s[..|s|] == s;
  }

  /** `ParenValue` reads the digits `x` found between "(" and ")". */
  lemma ParenValueOfFields(line: string, field: string, x: string)
    requires SplitField(line, '(', 1) == Some(field)
    requires SplitField(field, ')', 0) == Some(x) && IsDecimal(x)
    ensures ParenValue(line) == Success(DigitsValue(x))
  {
  }

  /** Reading back a marker line written by the script: `int()` of the text
      between its parentheses is the number written. */
  lemma ParenValueOfMarkerLine(tag: string, x: string)
    requires tag in {MajorTag, MinorTag, VersionTag, RevisionTag} && IsDecimal(x)
    ensures ParenValue(MarkerLine(tag, x)) == Success(DigitsValue(x))
  {
    var p := "    " + tag + " ";
    var rest := x + [')'] + "\n";
    assert '(' !in p;
    assert MarkerLine(tag, x) == p + ['('] + rest;
    SecondFieldAfter(p, '(', rest);
    DigitsHaveNoParens(x);
    WholeField(rest, '(');
    FirstFieldBefore(x, ')', "\n");
    ParenValueOfFields(MarkerLine(tag, x), rest, x);
  }

  lemma FourAppended<T>(x0: T, x1: T, x2: T, x3: T)
    ensures [] + [x0] + [x1] + [x2] + [x3] == [x0, x1, x2, x3]
  {
  }

  /** A line that the scan handles in branch `m` and whose number reads as `v`. */
  predicate ReadsAs(line: string, m: Marker, v: nat)
  {
    Classify(line) == m && ParenValue(line) == Success(v)
  }

  /** A marker line the script wrote is handled by its tag's branch and reads
      back as the number written. */
  lemma WrittenLineReadsAs(tag: string, m: Marker, x: string)
    requires m in {MajorMarker, MinorMarker, RevisionMarker} && tag == TagFor(m) && IsDecimal(x)
    ensures ReadsAs(MarkerLine(tag, x), m, DigitsValue(x))
  {
    DigitsHaveNoParens(x);
    ClassifyMarkerLine(tag, m, x);
    ParenValueOfMarkerLine(tag, x);
  }

  /** The MAJOR branch on a line whose number reads as `v`: read when no major
      is known yet, else rewritten with the known one. */
  lemma StepOnMajor(st: ScanState, line: string, v: nat, code: string)
    requires ReadsAs(line, MajorMarker, v)
    ensures Step(st, line, code) ==
      if st.major.None? then Success((st.(major := Some(v), rev := v), line))
      else Success((st, MarkerLine(MajorTag, IntToString(st.major.value))))
  {
  }

  /** The MINOR branch on a line whose number reads as `v`: read when no minor
      is known yet, else rewritten, with the MAJOR template, with the known one. */
  lemma StepOnMinor(st: ScanState, line: string, v: nat, code: string)
    requires ReadsAs(line, MinorMarker, v)
    ensures Step(st, line, code) ==
      if st.minor.None? then Success((st.(minor := Some(v), rev := v), line))
      else Success((st, MarkerLine(MajorTag, IntToString(st.minor.value))))
  {
  }

  /** The VERSION branch: today's code replaces the line, and the day is the same
      once a VERSION line contains today's code. */
  lemma StepOnVersion(st: ScanState, line: string, code: string)
    requires Classify(line) == VersionMarker
    ensures Step(st, line, code) ==
      Success((st.(sameDay := st.sameDay || Contains(line, code)), MarkerLine(VersionTag, code)))
  {
  }

  /** The REVISION branch on a line whose number reads as `v`: one more than `v`
      on the same day, else the revision the scan has reached. */
  lemma StepOnRevision(st: ScanState, line: string, v: nat, code: string)
    requires ReadsAs(line, RevisionMarker, v)
    ensures Step(st, line, code) ==
      if st.sameDay then Success((st.(rev := v + 1), MarkerLine(RevisionTag, IntToString(v + 1))))
      else Success((st, MarkerLine(RevisionTag, IntToString(st.rev))))
  {
  }

  /** One run over four lines that the scan handles as MAJOR, MINOR, VERSION and
      REVISION, in that order: the lines written and the version printed. */
  lemma FourLineRun(lines: seq<string>, l0: string, l1: string, l2: string, l3: string, a: nat, b: nat, r: nat,
                    date: Date, majorOverride: Option<int>, minorOverride: Option<int>)
    requires lines == [l0, l1, l2, l3]
    requires ReadsAs(l0, MajorMarker, a) && ReadsAs(l1, MinorMarker, b)
    requires Classify(l2) == VersionMarker && ReadsAs(l3, RevisionMarker, r)
    ensures var code := Code(date);
      var major := if majorOverride.None? then a else majorOverride.value;
      var minor := if minorOverride.None? then b else minorOverride.value;
      var rev := if Contains(l2, code) then r + 1
        else if minorOverride.None? then b
        else if majorOverride.None? then a
        else 0;
      Update(lines, date, majorOverride, minorOverride) ==
      Success(Rewritten(
        [if majorOverride.None? then l0 else MarkerLine(MajorTag, IntToString(major)),
         if minorOverride.None? then l1 else MarkerLine(MajorTag, IntToString(minor)),
         MarkerLine(VersionTag, code),
         MarkerLine(RevisionTag, IntToString(rev))],
        IntToString(major) + "." + IntToString(minor) + "." + code + "." + IntToString(rev)))
  {
    var code := Code(date);
    var s0 := InitialState(majorOverride, minorOverride);
    var s1 := if majorOverride.None? then s0.(major := Some(a), rev := a) else s0;
    var o0 := if majorOverride.None? then l0 else MarkerLine(MajorTag, IntToString(majorOverride.value));
    var s2 := if minorOverride.None? then s1.(minor := Some(b), rev := b) else s1;
    var o1 := if minorOverride.None? then l1 else MarkerLine(MajorTag, IntToString(minorOverride.value));
    var s3 := s2.(sameDay := Contains(l2, code));
    var o2 := MarkerLine(VersionTag, code);
    var s4 := if s3.sameDay then s3.(rev := r + 1) else s3;
    var o3 := MarkerLine(RevisionTag, IntToString(s4.rev));
    var ls: seq<string>, w: seq<string> := [], [];
    assert Scan(ls, code, s0) == Success(Progress(s0, w));
    StepOnMajor(s0, l0, a, code);
    ScanAppend(ls, l0, code, s0, Progress(s0, w), s1, o0);
    StepOnMinor(s1, l1, b, code);
    ScanAppend(ls + [l0], l1, code, s0, Progress(s1, w + [o0]), s2, o1);
    StepOnVersion(s2, l2, code);
    ScanAppend(ls + [l0] + [l1], l2, code, s0, Progress(s2, w + [o0] + [o1]), s3, o2);
    StepOnRevision(s3, l3, r, code);
    ScanAppend(ls + [l0] + [l1] + [l2], l3, code, s0, Progress(s3, w + [o0] + [o1] + [o2]), s4, o3);
    FourAppended(l0, l1, l2, l3);
    FourAppended(o0, o1, o2, o3);
  }

  /** A marker line written for the number `n` reads back as `n`. */
  lemma WrittenNumberReadsAs(tag: string, m: Marker, n: nat)
    requires m in {MajorMarker, MinorMarker, RevisionMarker} && tag == TagFor(m)
    ensures ReadsAs(MarkerLine(tag, NatToString(n)), m, n)
  {
    WrittenLineReadsAs(tag, m, NatToString(n));
  }

  /** One run over a header in the documented layout, holding the numbers `a`,
      `b` and `r` and the date code `c`, with or without overrides: the lines
      written and the version printed. */
  lemma HeaderRun(a: nat, b: nat, c: string, r: nat, date: Date,
                  majorOverride: Option<int>, minorOverride: Option<int>)
    requires '#' !in c
    ensures var code := Code(date);
      var major := if majorOverride.None? then a else majorOverride.value;
      var minor := if minorOverride.None? then b else minorOverride.value;
      var rev := if Contains(MarkerLine(VersionTag, c), code) then r + 1
        else if minorOverride.None? then b
        else if majorOverride.None? then a
        else 0;
      Update(Header(NatToString(a), NatToString(b), c, NatToString(r)), date, majorOverride, minorOverride) ==
      Success(Rewritten(
        [if majorOverride.None? then MarkerLine(MajorTag, NatToString(a)) else MarkerLine(MajorTag, IntToString(major)),
         if minorOverride.None? then MarkerLine(MinorTag, NatToString(b)) else MarkerLine(MajorTag, IntToString(minor)),
         MarkerLine(VersionTag, code),
         MarkerLine(RevisionTag, IntToString(rev))],
        IntToString(major) + "." + IntToString(minor) + "." + code + "." + IntToString(rev)))
  {
    var l0, l1 := MarkerLine(MajorTag, NatToString(a)), MarkerLine(MinorTag, NatToString(b));
    var l2, l3 := MarkerLine(VersionTag, c), MarkerLine(RevisionTag, NatToString(r));
    var lines := Header(NatToString(a), NatToString(b), c, NatToString(r));
    assert lines == [l0, l1, l2, l3];
    TagsOfMarkers();
    WrittenNumberReadsAs(MajorTag, MajorMarker, a);
    WrittenNumberReadsAs(MinorTag, MinorMarker, b);
    ClassifyMarkerLine(VersionTag, VersionMarker, c);
    WrittenNumberReadsAs(RevisionTag, RevisionMarker, r);
    FourLineRun(lines, l0, l1, l2, l3, a, b, r, date, majorOverride, minorOverride);
  }

  /** One run without overrides over a header in the documented layout: the
      numbers are kept and the revision is one more than `r` when the VERSION
      line already holds today's code, else the minor version `b`. */
  lemma PlainRun(a: nat, b: nat, c: string, r: nat, date: Date)
    requires '#' !in c
    ensures var code := Code(date);
      var n := if Contains(MarkerLine(VersionTag, c), code) then r + 1 else b;
      Update(Header(NatToString(a), NatToString(b), c, NatToString(r)), date, None, None) ==
      Success(Rewritten(Header(NatToString(a), NatToString(b), code, NatToString(n)),
        NatToString(a) + "." + NatToString(b) + "." + code + "." + NatToString(n)))
  {
    HeaderRun(a, b, c, r, date, None, None);
  }

  /** The VERSION line the script wrote contains the code it wrote. */
  lemma VersionLineContainsCode(code: string)
    ensures Contains(MarkerLine(VersionTag, code), code)
  {
    var p := "    " + VersionTag + " (";
    assert MarkerLine(VersionTag, code) == p + code + ")\n";
    assert OccursAt(MarkerLine(VersionTag, code), code, |p|);
  }

  /** A VERSION line holding another digit code of the same length does not
      contain today's code: the only digits of the line are those of its code. */
  lemma OtherCodeNotContained(c: string, code: string)
    requires AllDigits(c) && AllDigits(code) && |code| > 0 && |c| == |code| && c != code
    ensures !Contains(MarkerLine(VersionTag, c), code)
  {
    var L := MarkerLine(VersionTag, c);
    var p := "    " + VersionTag + " (";
    assert L == p + c + ")\n";
    assert forall k :: 0 <= k < |p| ==> !IsDigit(p[k]);
    forall i ensures !OccursAt(L, code, i) {
      if 0 <= i <= |L| - |code| {
        var last := i + |code| - 1;
        if i < |p| {
          assert L[i..i + |code|][0] == p[i];
          assert IsDigit(code[0]);
        } else if i > |p| {
          assert L[i..i + |code|][|code| - 1] == (")\n")[last - |p| - |c|];
          assert IsDigit(code[|code| - 1]);
        } else {
          assert L[i..i + |code|] == c;
        }
      }
    }
  }

  /** Running the script again on the day it last ran, with no overrides: the
      revision goes up by one and nothing else in the header changes. */
  lemma SameDayRerun(a: nat, b: nat, r: nat, date: Date)
    ensures var code := Code(date);
      Update(Header(NatToString(a), NatToString(b), code, NatToString(r)), date, None, None) ==
      Success(Rewritten(Header(NatToString(a), NatToString(b), code, NatToString(r + 1)),
        NatToString(a) + "." + NatToString(b) + "." + code + "." + NatToString(r + 1)))
  {
    CodeIsDigits(date);
    DigitsHaveNoParens(Code(date));
    VersionLineContainsCode(Code(date));
    PlainRun(a, b, Code(date), r, date);
  }

  /** Running the script on a new day with no overrides: today's code is
      written, and the revision is not reset to 0 but set to the minor version,
      the last number the scan read before the REVISION line. */
  lemma NewDayRun(a: nat, b: nat, c: string, r: nat, date: Date)
    requires '#' !in c && !Contains(MarkerLine(VersionTag, c), Code(date))
    ensures var code := Code(date);
      Update(Header(NatToString(a), NatToString(b), c, NatToString(r)), date, None, None) ==
      Success(Rewritten(Header(NatToString(a), NatToString(b), code, NatToString(b)),
        NatToString(a) + "." + NatToString(b) + "." + code + "." + NatToString(b)))
  {
    PlainRun(a, b, c, r, date);
  }

  /** A header written on another day, with a code of the same length, is
      handled as a new day. */
  lemma NextDayRun(a: nat, b: nat, r: nat, lastRun: Date, date: Date)
    requires Code(lastRun) != Code(date) && |Code(lastRun)| == |Code(date)|
    ensures var code := Code(date);
      Update(Header(NatToString(a), NatToString(b), Code(lastRun), NatToString(r)), date, None, None) ==
      Success(Rewritten(Header(NatToString(a), NatToString(b), code, NatToString(b)),
        NatToString(a) + "." + NatToString(b) + "." + code + "." + NatToString(b)))
  {
    CodeIsDigits(lastRun);
    CodeIsDigits(date);
    DigitsHaveNoParens(Code(lastRun));
    OtherCodeNotContained(Code(lastRun), Code(date));
    NewDayRun(a, b, Code(lastRun), r, date);
  }

  /** One run, with no overrides, over four lines that the scan handles as
      MAJOR, MAJOR, VERSION and REVISION: the second MAJOR line is rewritten
      with the first one's number and no minor version is found. */
  lemma MajorTwiceRun(l0: string, l1: string, l2: string, l3: string, a: nat, m: nat, r: nat, date: Date)
    requires ReadsAs(l0, MajorMarker, a) && ReadsAs(l1, MajorMarker, m)
    requires Classify(l2) == VersionMarker && ReadsAs(l3, RevisionMarker, r)
    ensures var code := Code(date);
      var rev := if Contains(l2, code) then r + 1 else a;
      Update([l0, l1, l2, l3], date, None, None) ==
      Success(Rewritten(
        [l0, MarkerLine(MajorTag, IntToString(a)), MarkerLine(VersionTag, code), MarkerLine(RevisionTag, IntToString(rev))],
        IntToString(a) + "." + "None" + "." + code + "." + IntToString(rev)))
  {
    var code := Code(date);
    var s0 := InitialState(None, None);
    var s1 := s0.(major := Some(a), rev := a);
    var s2 := s1.(sameDay := Contains(l2, code));
    var s3 := if s2.sameDay then s2.(rev := r + 1) else s2;
    var o1 := MarkerLine(MajorTag, IntToString(a));
    var o2 := MarkerLine(VersionTag, code);
    var o3 := MarkerLine(RevisionTag, IntToString(s3.rev));
    var ls: seq<string>, w: seq<string> := [], [];
    assert Scan(ls, code, s0) == Success(Progress(s0, w));
    StepOnMajor(s0, l0, a, code);
    ScanAppend(ls, l0, code, s0, Progress(s0, w), s1, l0);
    StepOnMajor(s1, l1, m, code);
    ScanAppend(ls + [l0], l1, code, s0, Progress(s1, w + [l0]), s1, o1);
    StepOnVersion(s1, l2, code);
    ScanAppend(ls + [l0] + [l1], l2, code, s0, Progress(s1, w + [l0] + [o1]), s2, o2);
    StepOnRevision(s2, l3, r, code);
    ScanAppend(ls + [l0] + [l1] + [l2], l3, code, s0, Progress(s2, w + [l0] + [o1] + [o2]), s3, o3);
    FourAppended(l0, l1, l2, l3);
    FourAppended(l0, o1, o2, o3);
  }

  /** The header a run with a minor override writes: the minor number goes on a
      second MAJOR line. */
  function MinorOverrideHeader(a: nat, m: nat, code: string, n: nat): seq<string>
  {
    [MarkerLine(MajorTag, NatToString(a)), MarkerLine(MajorTag, NatToString(m)),
     MarkerLine(VersionTag, code), MarkerLine(RevisionTag, NatToString(n))]
  }

  /** A run with only a minor override writes the minor number with the MAJOR
      template. */
  lemma MinorOverrideRun(a: nat, b: nat, c: string, r: nat, m: nat, date: Date)
    requires '#' !in c
    ensures var code := Code(date);
      var n := if Contains(MarkerLine(VersionTag, c), code) then r + 1 else a;
      Update(Header(NatToString(a), NatToString(b), c, NatToString(r)), date, None, Some(m)) ==
      Success(Rewritten(MinorOverrideHeader(a, m, code, n),
        NatToString(a) + "." + NatToString(m) + "." + code + "." + NatToString(n)))
  {
    HeaderRun(a, b, c, r, date, None, Some(m));
  }

  /** The next run on the same day, without overrides, over the header a minor
      override left: the minor version is reported as "None" and the second
      MAJOR line is overwritten with the major number. */
  lemma RerunAfterMinorOverride(a: nat, m: nat, n: nat, date: Date)
    ensures var code := Code(date);
      Update(MinorOverrideHeader(a, m, code, n), date, None, None) ==
      Success(Rewritten(MinorOverrideHeader(a, a, code, n + 1),
        NatToString(a) + "." + "None" + "." + code + "." + NatToString(n + 1)))
  {
    var code := Code(date);
    CodeIsDigits(date);
    DigitsHaveNoParens(code);
    TagsOfMarkers();
    WrittenNumberReadsAs(MajorTag, MajorMarker, a);
    WrittenNumberReadsAs(MajorTag, MajorMarker, m);
    ClassifyMarkerLine(VersionTag, VersionMarker, code);
    WrittenNumberReadsAs(RevisionTag, RevisionMarker, n);
    VersionLineContainsCode(code);
    MajorTwiceRun(MarkerLine(MajorTag, NatToString(a)), MarkerLine(MajorTag, NatToString(m)),
      MarkerLine(VersionTag, code), MarkerLine(RevisionTag, NatToString(n)), a, m, n, date);
  }

  /** The date code of the 90th day of 2024. */
  lemma ExampleCode()
    ensures Code(Date(2024, 90)) == "24090"
  {
    assert NatToString(2024) == "2024";
    assert NatToString(90) == "90";
  }

  /** An example run: a header at major 2, minor 5, revision 3, last written on
      the 90th day of 2024, run again that day. */
  lemma ExampleRerun(lines: seq<string>, date: Date)
    requires lines == Header("2", "5", "24090", "3") && date == Date(2024, 90)
    ensures Update(lines, date, None, None) == Success(Rewritten(Header("2", "5", "24090", "4"), "2.5.24090.4"))
  {
    ExampleCode();
    assert NatToString(2) == "2" && NatToString(5) == "5" && NatToString(3) == "3" && NatToString(4) == "4";
    assert "2" + "." + "5" + "." + "24090" + "." + "4" == "2.5.24090.4";
    SameDayRerun(2, 5, 3, date);
  }
}
