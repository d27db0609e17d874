/** The pyflakes wrapper: its configuration check and the reading of
    pyflakes' output lines ("path:line:col message" or "path:line: message")
    into findings. Running the pyflakes process is outside the model; its
    output lines are the input. */
module PyflakesTool {
  import opened Wrappers
  import opened PyStr
  import opened PyValues
  import opened StaticErrors
  import opened ToolCommon

  /** The tool's state: its `file_path` attribute, `None` until
      `load_config` assigns it. */
  datatype PyflakesConfig = PyflakesConfig(file_path: Option<Value>)

  const ErrorName: string := "Pyflakes Error"

  /** `load_config`: `file_path` must be present, and is assigned before
      the test that it contains ".py", so a refused path stays assigned. */
  function LoadConfig(tool: PyflakesConfig, config: Dict): (r: Outcome<PyflakesConfig>)
    ensures "file_path" !in config ==> r == Outcome(tool, Some(MissingFilePath))
    ensures "file_path" in config ==> r.state == PyflakesConfig(Some(config["file_path"]))
    ensures "file_path" in config && config["file_path"].VStr? ==>
      (r.raised.None? <==> Contains(config["file_path"].s, ".py"))
    ensures "file_path" in config && config["file_path"].VStr? && r.raised.Some? ==> r.raised == Some(NotAPythonFile)
  {
    var o := LoadFilePath(tool.file_path, config);
    Outcome(PyflakesConfig(o.state), o.raised)
  }

  /** One iteration of the loop in `run`. Every line yields a finding named
      "Pyflakes Error": the path is the text before the first ':', the line
      number is the text between the first two ':' read by `int()` (which
      raises on anything else), and the description follows the first space
      after them. */
  function ParseLine(line: string): (r: Result<Option<StaticError>, Exception>)
    ensures r.Ok? <==> ParseInt(Head(line).1).Ok?
    ensures r.Err? ==> r == Err(ParseInt(Head(line).1).error)
    ensures r.Ok? ==> r.value.Some?
    ensures r.Ok? && r.value.Some? ==>
      var e := r.value.value;
      && e == StaticError(file_path := e.file_path, line_no := e.line_no,
                          error_name := ErrorName, error_description := e.error_description)
      && ':' !in e.file_path
      && (e.file_path == line || StartsWith(line, e.file_path + ":"))
      && ParseInt(Head(line).1) == Ok(e.line_no)
      && EndsWith(line, e.error_description)
      && (!Contains(Head(line).2, " ") ==> e.error_description == "")
      && (Contains(Head(line).2, " ") ==> FollowsFirst(Head(line).2, " ", e.error_description))
  {
    var (path, number, rest) := Head(line);
    DescriptionAfter(line, " ");
    var lineNo :- ParseInt(number);
    Ok(Some(StaticError(file_path := path, line_no := lineNo,
                        error_name := ErrorName, error_description := Partition(rest, " ").2)))
  }

  /** `run` on pyflakes' output lines. Unlike mypy's wrapper nothing is
      skipped: a successful run reports exactly one finding per output
      line, in order, and a failing one the error of some line. */
  function Run(lines: seq<string>): (r: Result<seq<StaticError>, Exception>)
    ensures r.Ok? <==> forall i :: 0 <= i < |lines| ==> ParseLine(lines[i]).Ok?
    ensures r.Ok? ==> |r.value| == |lines|
    ensures r.Ok? ==> forall i :: 0 <= i < |lines| ==> r.value[i] == ParseLine(lines[i]).value.value
    ensures r.Err? ==> exists i ::
      && 0 <= i < |lines| && ParseLine(lines[i]) == Err(r.error)
      && forall j :: 0 <= j < i ==> ParseLine(lines[j]).Ok?
  {
    var r := CollectLines(lines, ParseLine);
    assert r.Ok? ==> |r.value| == |lines| && forall i :: 0 <= i < |lines| ==> r.value[i] == ParseLine(lines[i]).value.value by {
      if r.Ok? {
        OneFindingPerLine(lines, ParseLine);
      }
    }
    r
  }

  /** A line in pyflakes' format is read back as its path, line number and
      message. `tag` is what sits between the second ':' and the first space:
      the column and its ':' ("3:") in current pyflakes, nothing in older
      versions, which print "path:line: message". */
  lemma ParseLineRoundTrip(path: string, n: int, tag: string, message: string)
    requires ':' !in path
    requires ' ' !in tag
    ensures ParseLine(path + ":" + Decimal(n) + ":" + tag + " " + message)
      == Ok(Some(StaticError(file_path := path, line_no := n,
                             error_name := ErrorName, error_description := message)))
  {
    var rest := tag + " " + message;
    assert path + ":" + Decimal(n) + ":" + tag + " " + message == path + ":" + Decimal(n) + ":" + rest;
    HeadOf(path, n, rest);
    DecimalRoundTrip(n);
    PartitionAtChar(tag, ' ', message);
  }
}
