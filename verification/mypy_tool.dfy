/** The mypy wrapper: its configuration check and the reading of mypy's
    output lines ("path:line: error: message") into findings. Running the
    mypy process is outside the model; its output lines are the input. */
module MyPyTool {
  import opened Wrappers
  import opened PyStr
  import opened PyValues
  import opened StaticErrors
  import opened ToolCommon

  /** The tool's state: its `file_path` attribute, `None` until
      `load_config` assigns it. */
  datatype MyPyConfig = MyPyConfig(file_path: Option<Value>)

  const ErrorName: string := "MyPy Error"

  /** `load_config`: `file_path` must be present, and is assigned before
      the test that it contains ".py", so a refused path stays assigned. */
  function LoadConfig(tool: MyPyConfig, config: Dict): (r: Outcome<MyPyConfig>)
    ensures "file_path" !in config ==> r == Outcome(tool, Some(MissingFilePath))
    ensures "file_path" in config ==> r.state == MyPyConfig(Some(config["file_path"]))
    ensures "file_path" in config && config["file_path"].VStr? ==>
      (r.raised.None? <==> Contains(config["file_path"].s, ".py"))
    ensures "file_path" in config && config["file_path"].VStr? && r.raised.Some? ==> r.raised == Some(NotAPythonFile)
  {
    var o := LoadFilePath(tool.file_path, config);
    Outcome(MyPyConfig(o.state), o.raised)
  }

  /** One iteration of the loop in `run`: mypy's closing "Found ..." summary
      is skipped; any other line yields a finding named "MyPy Error" whose
      path is the text before the first ':', whose line number is the text
      between the first two ':' read by `int()` (which raises on anything
      else), and whose description follows the first "error: " after them. */
  function ParseLine(line: string): (r: Result<Option<StaticError>, Exception>)
    ensures StartsWith(line, "Found") ==> r == Ok(None)
    ensures !StartsWith(line, "Found") && r.Ok? ==> r.value.Some?
    ensures !StartsWith(line, "Found") ==> (r.Ok? <==> ParseInt(Head(line).1).Ok?)
    ensures !StartsWith(line, "Found") && r.Err? ==> r == Err(ParseInt(Head(line).1).error)
    ensures r.Ok? && r.value.Some? ==>
      var e := r.value.value;
      && e == StaticError(file_path := e.file_path, line_no := e.line_no,
                          error_name := ErrorName, error_description := e.error_description)
      && ':' !in e.file_path
      && (e.file_path == line || StartsWith(line, e.file_path + ":"))
      && ParseInt(Head(line).1) == Ok(e.line_no)
      && EndsWith(line, e.error_description)
      && (!Contains(Head(line).2, "error: ") ==> e.error_description == "")
      && (Contains(Head(line).2, "error: ") ==> FollowsFirst(Head(line).2, "error: ", e.error_description))
  {
    if StartsWith(line, "Found") then Ok(None)
    else
      var (path, number, rest) := Head(line);
      DescriptionAfter(line, "error: ");
      var lineNo :- ParseInt(number);
      Ok(Some(StaticError(file_path := path, line_no := lineNo,
                          error_name := ErrorName, error_description := Partition(rest, "error: ").2)))
  }

  /** `run` on mypy's output lines. */
  function Run(lines: seq<string>): (r: Result<seq<StaticError>, Exception>)
    ensures r.Ok? <==> forall i :: 0 <= i < |lines| ==> ParseLine(lines[i]).Ok?
    ensures r.Ok? ==> |r.value| <= |lines|
    ensures r.Err? ==> exists i ::
      && 0 <= i < |lines| && ParseLine(lines[i]) == Err(r.error)
      && forall j :: 0 <= j < i ==> ParseLine(lines[j]).Ok?
    ensures r.Ok? ==> r.value == Findings(lines, ParseLine)
  {
    var r := CollectLines(lines, ParseLine);
    assert r.Ok? ==> r.value == Findings(lines, ParseLine) by {
      if r.Ok? {
        CollectLinesFindings(lines, ParseLine);
      }
    }
    r
  }

  /** The summary line the loop skips. */
  predicate IsFoundSummary(line: string) {
    StartsWith(line, "Found")
  }

  /** A run that does not raise reports one finding per output line other
      than the "Found ..." summary, in order. */
  lemma RunReportsEachOtherLine(lines: seq<string>)
    requires Run(lines).Ok?
    ensures var kept := Unskipped(lines, IsFoundSummary);
      && |Run(lines).value| == |kept|
      && forall i :: 0 <= i < |kept| ==> Run(lines).value[i] == ParseLine(kept[i]).value.value
  {
    FindingsUnskipped(lines, ParseLine, IsFoundSummary);
    UnskippedYield(lines, ParseLine, IsFoundSummary);
    FindingsEach(Unskipped(lines, IsFoundSummary), ParseLine);
  }

  /** A line made of a path without ':' and more text after a ':' starts
      with "Found" only when the path does. */
  lemma NotASummary(path: string, tail: string)
    requires ':' !in path
    requires !StartsWith(path, "Found")
    ensures !StartsWith(path + ":" + tail, "Found")
  {
    var line := path + ":" + tail;
    if |path| >= 5 {
      assert line[..5] == path[..5];
    } else {
      assert line[|path|] == ':';
      assert "Found"[|path|] != ':';
    }
  }

  /** In " error: " + message the first "error: " is at index 1. */
  lemma DescriptionAfterMarker(message: string)
    ensures Partition(" error: " + message, "error: ").2 == message
  {
    var rest := " error: " + message;
    assert !OccursAt(rest, "error: ", 0) by {
      assert rest[0] == ' ';
    }
    assert OccursAt(rest, "error: ", 1) by {
      assert rest[1..8] == "error: ";
    }
    PartitionAt(rest, "error: ", 1);
    assert rest[8..] == message;
  }

  /** A line in mypy's error format is read back as its path, line number
      and message. */
  lemma ParseLineRoundTrip(path: string, n: int, message: string)
    requires ':' !in path
    requires !StartsWith(path, "Found")
    ensures ParseLine(path + ":" + Decimal(n) + ": error: " + message)
      == Ok(Some(StaticError(file_path := path, line_no := n,
                             error_name := ErrorName, error_description := message)))
  {
    var rest := " error: " + message;
    var line := path + ":" + Decimal(n) + ":" + rest;
    assert path + ":" + Decimal(n) + ": error: " + message == line;
    NotASummary(path, Decimal(n) + ":" + rest);
    assert path + ":" + (Decimal(n) + ":" + rest) == line;
    HeadOf(path, n, rest);
    DecimalRoundTrip(n);
    DescriptionAfterMarker(message);
  }

  /** A line whose text after the first ': ' starts with a letter has no
      line number, so `int()` raises and the whole run fails. mypy's own
      "Success: no issues found in 1 source file", printed when it finds
      nothing, is such a line. */
  lemma WordLineRaises(word: string, rest: string)
    requires ':' !in word
    requires !StartsWith(word, "Found")
    requires |rest| > 0 && 'a' <= rest[0] <= 'z'
    ensures ParseLine(word + ": " + rest).Err?
    ensures Run([word + ": " + rest]).Err?
  {
    var a := " " + rest;
    var line := word + ":" + a;
    assert word + ": " + rest == line;
    NotASummary(word, a);
    PartitionAtChar(word, ':', a);
    var p := Partition(a, ":");
    assert p.0 + p.1 + p.2 == a;
    if Contains(a, ":") {
      assert a[|p.0|] == ':';
      assert |p.0| >= 2;
      assert p.0[1] == rest[0];
    } else {
      assert p.0 == a;
    }
    assert Head(line).1 == p.0;
    ParseIntRejectsLetter(p.0, 1);
    assert [line][0] == line;
  }

  // ---------------------------------------------------------------------
  // The success summary

  /** As written, a run in which mypy finds nothing fails: its only output
      line is the "Success: ..." summary, which is not skipped. */
  lemma CleanRunRaisesAsWritten(rest: string)
    requires |rest| > 0 && 'a' <= rest[0] <= 'z'
    ensures Run(["Success: " + rest]).Err?
  {
    var word := "Success";
    var line := "Success: " + rest;
    assert line == word + ": " + rest;
    assert Run([word + ": " + rest]).Err? by {
      assert ':' !in word && !StartsWith(word, "Found") by {
        assert word[0] != "Found"[0];
      }
      WordLineRaises(word, rest);
    }
  }

  /** Both of mypy's closing summaries start with one of these words. */
  predicate IsSummary(line: string) {
    StartsWith(line, "Found") || StartsWith(line, "Success")
  }

  /** `ParseLine` skipping both summaries, as the skip of "Found" evidently
      intends: a summary yields nothing, and every other line is read as
      before. */
  function ParseLineSkippingSummaries(line: string): (r: Result<Option<StaticError>, Exception>)
    ensures IsSummary(line) ==> r == Ok(None)
    ensures !IsSummary(line) ==> r == ParseLine(line)
  {
    if StartsWith(line, "Success") then Ok(None) else ParseLine(line)
  }

  /** `run` with both summaries skipped. */
  function RunSkippingSummaries(lines: seq<string>): (r: Result<seq<StaticError>, Exception>)
    ensures r.Ok? <==> forall i :: 0 <= i < |lines| ==> ParseLineSkippingSummaries(lines[i]).Ok?
    ensures r.Ok? ==> |r.value| <= |lines|
    ensures r.Err? ==> exists i ::
      && 0 <= i < |lines| && ParseLineSkippingSummaries(lines[i]) == Err(r.error)
      && forall j :: 0 <= j < i ==> ParseLineSkippingSummaries(lines[j]).Ok?
    ensures r.Ok? ==> r.value == Findings(lines, ParseLineSkippingSummaries)
  {
    var r := CollectLines(lines, ParseLineSkippingSummaries);
    assert r.Ok? ==> r.value == Findings(lines, ParseLineSkippingSummaries) by {
      if r.Ok? {
        CollectLinesFindings(lines, ParseLineSkippingSummaries);
      }
    }
    r
  }

  /** With the correction, a run that does not raise reports one finding
      per output line other than the two summaries, in order. */
  lemma RunSkippingSummariesReportsEachOtherLine(lines: seq<string>)
    requires RunSkippingSummaries(lines).Ok?
    ensures var kept := Unskipped(lines, IsSummary);
      && |RunSkippingSummaries(lines).value| == |kept|
      && forall i :: 0 <= i < |kept| ==> RunSkippingSummaries(lines).value[i] == ParseLineSkippingSummaries(kept[i]).value.value
  {
    FindingsUnskipped(lines, ParseLineSkippingSummaries, IsSummary);
    UnskippedYield(lines, ParseLineSkippingSummaries, IsSummary);
    FindingsEach(Unskipped(lines, IsSummary), ParseLineSkippingSummaries);
  }

  /** With the correction, a clean run reports no findings. */
  lemma CleanRunReportsNothing(rest: string)
    ensures RunSkippingSummaries(["Success: " + rest]) == Ok([])
  {
    var line := "Success: " + rest;
    assert StartsWith(line, "Success") by {
      assert line[..7] == "Success";
    }
    assert ParseLineSkippingSummaries(line) == Ok(None);
    var none: seq<string> := [];
    assert [line][1..] == none;
  }

  /** The correction keeps mypy's error lines as they were read. */
  lemma ParseLineSkippingSummariesRoundTrip(path: string, n: int, message: string)
    requires ':' !in path
    requires !StartsWith(path, "Found") && !StartsWith(path, "Success")
    ensures ParseLineSkippingSummaries(path + ":" + Decimal(n) + ": error: " + message)
      == Ok(Some(StaticError(file_path := path, line_no := n,
                             error_name := ErrorName, error_description := message)))
  {
    var line := path + ":" + Decimal(n) + ": error: " + message;
    var tail := Decimal(n) + ": error: " + message;
    assert line == path + ":" + tail;
    NotASummary(path, tail);
    assert !StartsWith(line, "Success") by {
      if |path| >= 7 {
        assert line[..7] == path[..7];
      } else {
        assert line[|path|] == ':';
        assert "Success"[|path|] != ':';
      }
    }
    ParseLineRoundTrip(path, n, message);
  }
}
