# Firmware version rewriter

`updateFileName.py` keeps the firmware version of a C header up to date. Its
`main` reads the file line by line and watches for four marker lines:

    #define FW_MAJOR_VERSION (x)
    #define FW_MINOR_VERSION (y)
    #define FW_VERSION_VERSION (yyddd)
    #define FW_REVISION_VERSION (z)

It writes every line to a temporary file, then replaces the original with that
file. It prints the new version `major.minor.yyddd.revision`. The date code
`yyddd` is the last two digits of the year followed by the day of the year,
padded with zeros to three digits. The revision goes up by one when the file
already holds today's date code. The major and minor numbers come from
optional overrides or from the file itself.

This project models `main` from the date code to the printed version. It
proves what a run does to any file, and what runs do to the header in the
layout the script documents.

- `Text` models the Python string operations the script uses: `t in s`,
  `s.split(c)[k]`, `str(n)`, `"%d" % n` and `int(s)`.
- `DateCode` builds the date code. `PadDay` is the zero-padding `while` loop.
- `VersionRewriter` holds the scan:
  - `Classify` is the `if`/`elif` chain of marker tests, in the script's order.
  - `Step` is one iteration of the loop; `Scan` folds it over the lines.
  - `Update` is one whole run.
  - `UpdateVersion` is the imperative `for` loop, proved equal to `Update`.
    `RewriteLine` is the body of that loop.
- `RewriteProperties` states what one run does to an arbitrary file:
  - which lines change and how;
  - when `same_day` holds;
  - which major, minor and revision values are reported;
  - when and where the run fails.
- `VersionFile` follows concrete runs over the four-line header in the layout
  the docstring describes:
  - a rerun on the same day;
  - a run on a new day;
  - duplicate major lines;
  - a minor override followed by a plain rerun;
  - an example run (2.5, day 90 of 2024, revision 3 becomes 4).

An exception raised by `int()` or by `split("(")[1]` stops the loop before the
original file is replaced. `Update` returns that exception, with the index of
the line that raised it, as a `Failure`. In that case the file is left as it
was.

Some of what the code does may surprise a reader of the script. The model
follows the code:

- **Duplicate marker lines.** When a major or minor marker line appears more
  than once without an override, the FIRST value read is reported. After the
  first such line, the variable is no longer `None`, so every later such line
  is rewritten with the first value (`CarriedVersion`, `CarriedLine`,
  `MajorTwiceRun`).
- **A new day does not reset the revision to 0.** On a new day the revision
  line receives `rev_number`. That is the number read from the last major or
  minor line actually read before it. Only the first major line and the first
  minor line are read, and only when there is no override for them. For the
  header layout the docstring describes (lines 5-11), without overrides, it is
  the minor version (`NewDayRun`, `NextDayRun`). It is 0 in two cases
  (`FinalRevision`):
  - no such line comes before the revision line;
  - the number read from the last such line is 0.
- **"Same day" is a substring test.** It holds when the date marker line
  contains today's date code anywhere in it, not only when the old code equals
  the new one (`SameDayIff`).
- **The minor override does not end up on the minor line.** The docstring
  (lines 24 and 47) describes `--minorV` as the minor version number to set.
  The code writes it with the MAJOR template (line 84), so the file gets a
  second FW_MAJOR_VERSION line and no FW_MINOR_VERSION line. The next run
  without overrides reports the minor version as `None`. It also overwrites
  that second line with the major number (`MinorOverrideRun`,
  `RerunAfterMinorOverride`).

## Model

| member | source | states |
|---|---|---|
| Text.Contains | updateFileName.py:75-91 | Python's `t in s`: `t` occurs in `s` at some index; the definition on which `ClassifyPrecedence`, `SameDayIff` and `MarkerLineContains` rest |
| Text.ParseDecimal | updateFileName.py:77 | `int()` of a plain digit string, `None` for ValueError; read back by `NatToString` and `ParenValueOfMarkerLine` (weaker, see "## Left out") |
| DateCode.ZeroPad | updateFileName.py:54-55 | the day padded with zeros to three characters; `PadDay` computes it and `ZeroPadValue` states that it keeps the digits and the value |
| DateCode.YearSuffix | updateFileName.py:56 | `str(year)[2:]`; `YearSuffixValue` states its length and value |
| DateCode.Code | updateFileName.py:53-58 | the date code, year suffix then padded day; `CodeIsDigits` and `CodeShape` state its shape and value |
| VersionRewriter.MarkerLine | updateFileName.py:60-64 | the marker line templates; `MarkerLineContains`, `ClassifyMarkerLine` and `ParenValueOfMarkerLine` state how a later run reads them |
| VersionRewriter.FirstMatch | updateFileName.py:75-91 | the first test whose tag the line contains; `ClassifyPrecedence` states the outcome for each branch |
| VersionRewriter.Classify | updateFileName.py:75-91 | the `if`/`elif` chain of marker tests, in the script's order; characterised by `ClassifyPrecedence` |
| VersionRewriter.Step | updateFileName.py:75-95 | one iteration of the loop body; `StepFacts`, `StepWritten`, `StepFailure` and `StepOnUnmarked` state what it does to each variable and line |
| VersionRewriter.Scan | updateFileName.py:74-95 | the loop over all lines, stopping at the first exception; `ScanAppend`, `ScanLength`, `ScanLineByLine` and `ScanFailure` characterise it |
| VersionRewriter.ShowVersion | updateFileName.py:104 | the f-string rendering of a major or minor variable, "None" when unset |
| VersionRewriter.VersionString | updateFileName.py:104 | the printed `major.minor.code.revision`; `UpdateReportsVersion` states it in terms of the reported values |
| VersionRewriter.Update | updateFileName.py:52-104 | one run: the rewritten lines and the printed version, or the exception; `UpdateIsScan`, `UpdateRewritesLines`, `UpdateCarriedLines`, `UpdateReportsVersion` and `UpdateFailure` state its behaviour |
| Text.Find | updateFileName.py:77 | the index of the first separator, with no separator before it; it equals the length exactly when the separator is absent |
| Text.SplitField | updateFileName.py:77 | `s.split(c)[k]` raises IndexError exactly when `s` holds fewer than `k` separators; a field never contains the separator; field 0 is the text before the first separator |
| Text.NatToString | updateFileName.py:53 | `str(n)` is a non-empty digit string that `int()` reads back as `n`, and it starts with "0" only for 0 |
| Text.IntToString | updateFileName.py:79 | `"%d" % i` is `str(i)` for `i >= 0` and "-" followed by `str(-i)` otherwise; it never contains "#", "(" or ")" |
| Text.NatToStringLength | updateFileName.py:53-55 | a number below `10^k` is written with at most `k` digits, so a day of the year needs no more than three |
| Text.DigitsValueAppend | updateFileName.py:58 | the value of a concatenation of digit strings is the first value shifted by the second's length plus the second value |
| DateCode.PadDay | updateFileName.py:54-55 | the padding loop returns the day string preceded by just enough "0" characters to reach length 3, and leaves longer strings alone |
| DateCode.ZeroPadValue | updateFileName.py:54-55 | padding with zeros keeps a digit string's digits and its value |
| DateCode.CodeIsDigits | updateFileName.py:53-58 | every date code consists of digits only and has at least three of them |
| DateCode.YearSuffixValue | updateFileName.py:56 | for a four-digit year, `str(year)[2:]` is two digits whose value is `year % 100` |
| DateCode.CodeShape | updateFileName.py:53-58 | for a four-digit year and a day in 1..366, the date code has five digits; its value is `(year % 100) * 1000 + day` and its last three digits read as the day |
| VersionRewriter.ClassifyPrecedence | updateFileName.py:75-91 | a line is handled by the first tag it contains, in the order MAJOR, MINOR, VERSION, REVISION, and by exactly one branch |
| VersionRewriter.ParenValue | updateFileName.py:77 | reading the number fails with IndexError exactly when the line has no "(" |
| VersionRewriter.ScanFailureExtends | updateFileName.py:74-95 | an exception in the first `k` lines is the exception of the whole run |
| VersionRewriter.ScanAppend | updateFileName.py:74-95 | the scan of `ls + [x]` is the scan of `ls` followed by one loop iteration on `x` |
| VersionRewriter.RewriteLine | updateFileName.py:75-94 | one execution of the loop body, with its tests in the script's order, computes exactly one `Step` |
| VersionRewriter.UpdateVersion | updateFileName.py:52-104 | the padding loop plus the line loop yields exactly the lines and version of `Update`, or the exception at the line where the loop stops |
| RewriteProperties.ScanLength | updateFileName.py:74-95 | a scan that reaches the end writes exactly one line per line read |
| RewriteProperties.ScanLineByLine | updateFileName.py:74-95 | output line `i` is what the loop body writes for input line `i`, from the state the earlier lines left |
| RewriteProperties.StepFacts | updateFileName.py:75-94 | how one iteration changes `major_version`, `minor_version`, `same_day` and `rev_number`, in every branch |
| RewriteProperties.FirstIndex | updateFileName.py:75-84 | the first line handled by a given branch: no earlier line is handled by it |
| RewriteProperties.CarriedVersion | updateFileName.py:75-84 | the reported major (minor) is the override when given; otherwise it is the value of the FIRST major (minor) line, or `None` when there is none |
| RewriteProperties.CarriedStep | updateFileName.py:76-82 | one iteration sets the major (minor) only on a major (minor) line met while that variable is still `None` |
| RewriteProperties.CarriedLine | updateFileName.py:75-84 | the first major (minor) line is kept when there is no override; every other such line is written with the MAJOR template and the reported value |
| RewriteProperties.SameDayIff | updateFileName.py:85-88 | `same_day` ends up true exactly when some date marker line contains today's code |
| RewriteProperties.SameDayBeforeLast | updateFileName.py:85-88 | a date marker line before the end contains today's code exactly when one does before the last line or the last line is such a line |
| RewriteProperties.SameDayNeverResets | updateFileName.py:69-88 | once `same_day` holds after some lines it holds at the end |
| RewriteProperties.LastSetter | updateFileName.py:76-93 | the last line before `k` that assigns `rev_number`; no later line before `k` assigns it |
| RewriteProperties.LastLineRevision | updateFileName.py:76-93 | the last line changes `rev_number` exactly when it assigns it, and then to the number it reads (plus one on a revision line) |
| RewriteProperties.RevisionAfterStep | updateFileName.py:76-93 | the revision after line `k` is the value line `k` assigns, or the revision before it |
| RewriteProperties.FinalRevision | updateFileName.py:70-94 | the final `rev_number` is the value assigned by the last line that assigns it, or 0 when no line does |
| RewriteProperties.RevisionLine | updateFileName.py:91-94 | a revision line becomes its own number plus one once `same_day` holds, and the current `rev_number` otherwise |
| RewriteProperties.ScanFailure | updateFileName.py:74-95 | a failed scan stops at a major, minor or revision line whose number `int()` could not read, all earlier lines having passed |
| RewriteProperties.StepFailure | updateFileName.py:75-94 | one iteration fails only on a major, minor or revision line, with the error of reading its number |
| RewriteProperties.UpdateIsScan | updateFileName.py:73-104 | a run succeeds exactly when the scan does; it writes the scan's lines and prints the version built from the final variables |
| RewriteProperties.UpdateRewritesLines | updateFileName.py:74-95 | a successful run writes one line per input line, in order; lines without a marker are unchanged and every date marker line becomes the new date line |
| RewriteProperties.StepWritten | updateFileName.py:85-95 | one iteration writes an unmarked line unchanged and writes the new date line for a date marker line |
| RewriteProperties.UpdateCarriedLines | updateFileName.py:75-84 | with an override every major (minor) line holds it on the MAJOR template; without, the first is kept and later ones hold the first one's value |
| RewriteProperties.UpdateReportsVersion | updateFileName.py:104 | the printed version is the reported major, the reported minor, the date code and the final revision, joined by dots |
| RewriteProperties.UpdateFailure | updateFileName.py:74-98 | a failed run names a major, minor or revision line whose number could not be read; the error is IndexError exactly when that line has no "(" |
| RewriteProperties.UnparsableFirstMarkerFails | updateFileName.py:75-82 | without an override, a first major (minor) line without "(" makes the run fail at that line or earlier |
| RewriteProperties.ScanStopsAtUnparsableFirst | updateFileName.py:75-82 | the scan stops with an error at or before the first major (minor) line without "(" while that variable is `None` |
| RewriteProperties.UnparsableFirstStep | updateFileName.py:75-82 | when the earlier lines pass, the scan fails with IndexError exactly at the first major (minor) line without "(" |
| RewriteProperties.UnreadableStepFails | updateFileName.py:75-82 | a major (minor) line without "(" raises IndexError while that variable is still `None` |
| RewriteProperties.StepOnUnmarked | updateFileName.py:95 | a line without a marker is written unchanged and changes no variable |
| RewriteProperties.ScanUnmarked | updateFileName.py:74-95 | lines without markers are copied and leave every variable as it was |
| RewriteProperties.UnmarkedFileUnchanged | updateFileName.py:69-104 | a file without marker lines is written back unchanged, and the run prints the overrides (or `None`), the date code and revision 0 |
| VersionFile.MarkerLineContains | updateFileName.py:60-64 | a marker line the script writes contains its own tag and none of the other three |
| VersionFile.ClassifyMarkerLine | updateFileName.py:60-91 | a marker line the script writes is handled by its own tag's branch |
| VersionFile.ParenValueOfMarkerLine | updateFileName.py:63-77 | `int()` of the text between the parentheses of a written marker line is the number written |
| VersionFile.WrittenLineReadsAs | updateFileName.py:63-94 | a written major, minor or revision line is handled by its own branch and reads back as the number written |
| VersionFile.FourLineRun | updateFileName.py:74-104 | a run over MAJOR, MINOR, VERSION and REVISION lines writes and prints the values the overrides and `same_day` determine |
| VersionFile.HeaderRun | updateFileName.py:33-104 | one run over a header in the layout of lines 5-9, with or without overrides, writes and prints exactly the values the overrides and `same_day` determine |
| VersionFile.PlainRun | updateFileName.py:42 | a run without overrides keeps major and minor; the revision becomes old+1 if the date line holds today's code, else the minor version |
| VersionFile.VersionLineContainsCode | updateFileName.py:60 | the date line the script writes contains the code it was written with |
| VersionFile.OtherCodeNotContained | updateFileName.py:86 | a date line holding a different code of the same length does not contain today's code |
| VersionFile.SameDayRerun | updateFileName.py:42 | rerunning on the day of the last run raises the revision by one and leaves the rest of the header unchanged |
| VersionFile.NewDayRun | updateFileName.py:91-94 | on a new day the revision becomes the minor version, not 0 |
| VersionFile.NextDayRun | updateFileName.py:85-94 | a header written on another day is handled as a new day |
| VersionFile.MajorTwiceRun | updateFileName.py:75-79 | with two MAJOR lines, the second is overwritten with the first's number and the minor is reported as `None` |
| VersionFile.MinorOverrideRun | updateFileName.py:80-84 | a minor override is written on a second FW_MAJOR_VERSION line |
| VersionFile.RerunAfterMinorOverride | updateFileName.py:75-84 | the following plain run reports the minor as `None` and writes the major number on both MAJOR lines |
| VersionFile.ExampleCode | updateFileName.py:52-58 | the date code of day 90 of 2024 is "24090" |
| VersionFile.ExampleRerun | updateFileName.py:5-13 | an example: a header at 2.5.24090.3, run again on day 90 of 2024, becomes 2.5.24090.4 and prints "2.5.24090.4" |

## Left out

- `datetime.now()` is a `Date` parameter, the year and the day of the year. The script calls it twice (lines 53 and 56); a run that straddles New Year could mix two dates, and the model cannot.
- Files are not modelled:
  - The file is a sequence of lines, each with its own line terminator, as Python's line iteration yields them.
  - Opening, reading and writing the files, the ".tmp" file, and the `os.replace` that installs it are left out, as is the temporary file left behind after an exception.
  - `IOError` is left out.
- Printing is left out. The version is returned as a string, and the verbose message is not modelled.
- The `__main__` block is left out: argument parsing and the walk up to the repository root.
- ParenValue: `int()` is modelled as accepting only a non-empty run of ASCII digits. Python also accepts surrounding whitespace, a sign, underscores between digits and non-ASCII digits. For such text the model reports `NotANumber` where Python returns a number.
- ParenValue: consequently a negative override, which `"%d"` writes as "-n", cannot be read back by a later run in the model.
- The VersionFile scenario lemmas are stated for numbers written in shortest decimal form. The general RewriteProperties lemmas also cover lines with leading zeros or other text around the markers.
