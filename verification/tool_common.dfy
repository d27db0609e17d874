/** What the mypy and pyflakes wrappers share: the `file_path` setting check
    of their `load_config`, and the loop that turns the tool's standard
    output, line by line, into findings. */
module ToolCommon {
  import opened Wrappers
  import opened PyStr
  import opened PyValues
  import opened StaticErrors

  /** Python's `needle in v` for a str `needle`: a substring test on a str,
      an element test on a list, a key test on a dict, and a `TypeError` for
      values that are not containers. */
  function PyIn(needle: string, v: Value): (r: Result<bool, Exception>)
    ensures v.VStr? ==> r == Ok(Contains(v.s, needle))
    ensures v.VList? ==> r == Ok(VStr(needle) in v.items)
    ensures v.VDict? ==> r == Ok(needle in v.entries)
    ensures v.VInt? || v.VOther? ==> r.Err? && r.error.TypeError?
  {
    match v
    case VStr(s) => Ok(Contains(s, needle))
    case VList(items) => Ok(VStr(needle) in items)
    case VDict(entries) => Ok(needle in entries)
    case _ => Err(TypeError("argument is not iterable"))
  }

  const MissingFilePath: Exception := ValueError("Invalid config file. [file_type] not defined.")
  const NotAPythonFile: Exception := ValueError("Invalid file type provided. File must have the extension \".py\"")

  /** `load_config`, on the tool's `file_path` attribute (`None` while it
      is unset): a missing `file_path` key raises and changes nothing;
      otherwise the setting is assigned first and then `'.py'` must occur in
      it, so a refused setting is kept all the same. Note that this is an
      occurrence test, not a suffix test. */
  function LoadFilePath(current: Option<Value>, config: Dict): (r: Outcome<Option<Value>>)
    ensures "file_path" !in config ==> r == Outcome(current, Some(MissingFilePath))
    ensures "file_path" in config ==> r.state == Some(config["file_path"])
    ensures "file_path" in config ==> (r.raised.None? <==> PyIn(".py", config["file_path"]) == Ok(true))
    ensures "file_path" in config && config["file_path"].VStr? ==>
      (r.raised.None? <==> Contains(config["file_path"].s, ".py"))
    ensures "file_path" in config && config["file_path"].VStr? && r.raised.Some? ==> r.raised == Some(NotAPythonFile)
  {
    if "file_path" !in config then Outcome(current, Some(MissingFilePath))
    else
      var path := config["file_path"];
      match PyIn(".py", path)
      case Err(e) => Outcome(Some(path), Some(e))
      case Ok(found) => Outcome(Some(path), if found then None else Some(NotAPythonFile))
  }

  /** A path that merely contains ".py" somewhere passes the check. */
  lemma LoadFilePathIsNotASuffixCheck(current: Option<Value>)
    ensures LoadFilePath(current, map["file_path" := VStr("notes.pyc.txt")]) == Outcome(Some(VStr("notes.pyc.txt")), None)
  {
    assert OccursAt("notes.pyc.txt", ".py", 5);
  }

  /** A refused path stays assigned: the tool is left pointing at it. */
  lemma LoadFilePathKeepsRefusedPath(current: Option<Value>)
    ensures LoadFilePath(current, map["file_path" := VStr("notes.txt")]) == Outcome(Some(VStr("notes.txt")), Some(NotAPythonFile))
  {
    var path := "notes.txt";
    assert !Contains(path, ".py") by {
      forall k | 0 <= k <= 6
        ensures !OccursAt(path, ".py", k)
      {
        assert path[k..k + 3][0] == path[k] && path[k..k + 3][1] == path[k + 1];
        assert path[5] == '.' && path[6] == 't';
        assert k != 5 ==> path[k] != '.';
      }
      assert FindFrom(path, ".py", 7) == None;
    }
  }

  /** The `for` loop over the output lines: each line yields at most one
      finding, in order; the first line whose parsing raises ends the run
      with that exception. */
  function CollectLines(lines: seq<string>, parse: string -> Result<Option<StaticError>, Exception>)
    : (r: Result<seq<StaticError>, Exception>)
    ensures r.Ok? <==> forall i :: 0 <= i < |lines| ==> parse(lines[i]).Ok?
    ensures r.Ok? ==> |r.value| <= |lines|
    ensures r.Err? ==> exists i ::
      && 0 <= i < |lines| && parse(lines[i]) == Err(r.error)
      && forall j :: 0 <= j < i ==> parse(lines[j]).Ok?
  {
    if |lines| == 0 then Ok([])
    else
      match parse(lines[0])
      case Err(e) => Err(e)
      case Ok(found) =>
        match CollectLines(lines[1..], parse)
        case Err(e) =>
          ghost var i :| 0 <= i < |lines[1..]| && parse(lines[1..][i]) == Err(e)
            && forall j :: 0 <= j < i ==> parse(lines[1..][j]).Ok?;
          assert parse(lines[i + 1]) == Err(e);
          assert forall j :: 1 <= j < i + 1 ==> parse(lines[j]).Ok? by {
            forall j | 1 <= j < i + 1 ensures parse(lines[j]).Ok? {
              assert lines[j] == lines[1..][j - 1];
            }
          }
          Err(e)
        case Ok(rest) =>
          assert forall i :: 1 <= i < |lines| ==> parse(lines[i]).Ok? by {
            forall i | 1 <= i < |lines| ensures parse(lines[i]).Ok? {
              assert lines[i] == lines[1..][i - 1];
            }
          }
          Ok((if found.Some? then [found.value] else []) + rest)
  }

  /** The findings of a run in which every line parses: the parsed findings
      of the lines, in order, skipping lines that yield none. */
  function Findings(lines: seq<string>, parse: string -> Result<Option<StaticError>, Exception>): seq<StaticError>
    requires forall i :: 0 <= i < |lines| ==> parse(lines[i]).Ok?
  {
    if |lines| == 0 then []
    else
      var found := parse(lines[0]).value;
      (if found.Some? then [found.value] else []) + Findings(lines[1..], parse)
  }

  lemma {:induction false} CollectLinesFindings(lines: seq<string>, parse: string -> Result<Option<StaticError>, Exception>)
    requires forall i :: 0 <= i < |lines| ==> parse(lines[i]).Ok?
    ensures CollectLines(lines, parse) == Ok(Findings(lines, parse))
  {
    if |lines| > 0 {
      CollectLinesFindings(lines[1..], parse);
    }
  }

  /** The lines a parser does not skip, in their order. */
  function Unskipped(lines: seq<string>, skip: string -> bool): (r: seq<string>)
    ensures forall i :: 0 <= i < |r| ==> r[i] in lines && !skip(r[i])
    ensures forall i :: 0 <= i < |lines| && !skip(lines[i]) ==> lines[i] in r
  {
    if |lines| == 0 then []
    else (if skip(lines[0]) then [] else [lines[0]]) + Unskipped(lines[1..], skip)
  }

  /** For a parser that yields nothing exactly on the lines it skips, every
      line it does not skip yields a finding. */
  lemma UnskippedYield(lines: seq<string>, parse: string -> Result<Option<StaticError>, Exception>, skip: string -> bool)
    requires forall i :: 0 <= i < |lines| ==> parse(lines[i]).Ok?
    requires forall l :: parse(l).Ok? ==> (parse(l).value.None? <==> skip(l))
    ensures forall i :: 0 <= i < |Unskipped(lines, skip)| ==>
      parse(Unskipped(lines, skip)[i]).Ok? && parse(Unskipped(lines, skip)[i]).value.Some?
  {
    var kept := Unskipped(lines, skip);
    forall i | 0 <= i < |kept|
      ensures parse(kept[i]).Ok? && parse(kept[i]).value.Some?
    {
      var j :| 0 <= j < |lines| && lines[j] == kept[i];
    }
  }

  /** ... and the findings of a run come from the lines it does not skip. */
  lemma {:induction false} FindingsUnskipped(lines: seq<string>, parse: string -> Result<Option<StaticError>, Exception>,
                                             skip: string -> bool)
    requires forall i :: 0 <= i < |lines| ==> parse(lines[i]).Ok?
    requires forall l :: parse(l).Ok? ==> (parse(l).value.None? <==> skip(l))
    ensures forall i :: 0 <= i < |Unskipped(lines, skip)| ==> parse(Unskipped(lines, skip)[i]).Ok?
    ensures Findings(lines, parse) == Findings(Unskipped(lines, skip), parse)
  {
    UnskippedYield(lines, parse, skip);
    if |lines| > 0 {
      var rest := lines[1..];
      assert forall i :: 0 <= i < |rest| ==> parse(rest[i]).Ok? by {
        forall i | 0 <= i < |rest| ensures parse(rest[i]).Ok? {
          assert rest[i] == lines[i + 1];
        }
      }
      FindingsUnskipped(rest, parse, skip);
      var kept := Unskipped(lines, skip);
      if !skip(lines[0]) {
        assert kept == [lines[0]] + Unskipped(rest, skip);
        assert kept[1..] == Unskipped(rest, skip);
      } else {
        assert kept == Unskipped(rest, skip);
      }
    }
  }

  /** When every line yields a finding, the run reports exactly one finding
      per line, in order. */
  lemma {:induction false} OneFindingPerLine(lines: seq<string>, parse: string -> Result<Option<StaticError>, Exception>)
    requires forall i :: 0 <= i < |lines| ==> parse(lines[i]).Ok? && parse(lines[i]).value.Some?
    ensures CollectLines(lines, parse).Ok?
    ensures |CollectLines(lines, parse).value| == |lines|
    ensures forall i :: 0 <= i < |lines| ==> CollectLines(lines, parse).value[i] == parse(lines[i]).value.value
  {
    CollectLinesFindings(lines, parse);
    FindingsEach(lines, parse);
  }

  lemma {:induction false} FindingsEach(lines: seq<string>, parse: string -> Result<Option<StaticError>, Exception>)
    requires forall i :: 0 <= i < |lines| ==> parse(lines[i]).Ok? && parse(lines[i]).value.Some?
    ensures |Findings(lines, parse)| == |lines|
    ensures forall i :: 0 <= i < |lines| ==> Findings(lines, parse)[i] == parse(lines[i]).value.value
  {
    if |lines| > 0 {
      FindingsEach(lines[1..], parse);
      forall i | 1 <= i < |lines|
        ensures Findings(lines, parse)[i] == parse(lines[i]).value.value
      {
        assert lines[i] == lines[1..][i - 1];
      }
    }
  }

  // ---------------------------------------------------------------------
  // The "path:line:rest" head both tools read from an output line

  /** A rendered integer holds digits and a minus sign only. */
  lemma DecimalHasNoColon(n: int)
    ensures ':' !in Decimal(n)
  {
    var d := Decimal(n);
    if n < 0 {
      assert d == "-" + Digits(-n);
      assert forall i :: 1 <= i < |d| ==> d[i] == Digits(-n)[i - 1];
    }
  }

  /** The text before the first ':' holds no ':' and is followed by one,
      unless the line holds none at all. */
  lemma PartitionFront(line: string)
    ensures ':' !in Partition(line, ":").0
    ensures var front := Partition(line, ":").0;
      front == line || StartsWith(line, front + ":")
  {
    var p1 := Partition(line, ":");
    if Contains(line, ":") {
      forall j | 0 <= j < |p1.0| ensures p1.0[j] != ':' {
        assert !OccursAt(line, ":", j);
        assert line[j..j + 1] == [p1.0[j]];
      }
      assert line[..|p1.0| + 1] == p1.0 + ":";
    } else {
      ContainsIff(line, ":");
      if ':' in line {
        var j :| 0 <= j < |line| && line[j] == ':';
        assert OccursAt(line, ":", j) by {
          assert line[j..j + 1] == ":";
        }
      }
    }
  }

  /** The two `partition(':')` steps both tools perform: the text before the
      first ':', the text between it and the second ':', and the rest. */
  function Head(line: string): (r: (string, string, string))
    ensures ':' !in r.0
    ensures r.0 == line || StartsWith(line, r.0 + ":")
  {
    var p1 := Partition(line, ":");
    PartitionFront(line);
    var p2 := Partition(p1.2, ":");
    (p1.0, p2.0, p2.2)
  }

  /** The rest after the second ':' is a tail of the line. */
  lemma TailOfHead(line: string)
    ensures EndsWith(line, Head(line).2)
  {
    var p1 := Partition(line, ":");
    var p2 := Partition(p1.2, ":");
    assert line == (p1.0 + p1.1 + p2.0 + p2.1) + p2.2;
  }

  /** A tail of a tail is a tail. */
  lemma EndsWithTrans(s: string, t: string, u: string)
    requires EndsWith(s, t) && EndsWith(t, u)
    ensures EndsWith(s, u)
  {
    assert s[|s| - |u|..] == t[|t| - |u|..];
  }

  /** `d` is what follows the first occurrence of `marker` in `rest`:
      `rest` ends with the marker and `d`, and the marker occurs nowhere
      before that. */
  predicate FollowsFirst(rest: string, marker: string, d: string) {
    && EndsWith(rest, marker + d)
    && forall j :: 0 <= j < |rest| - |marker + d| ==> !OccursAt(rest, marker, j)
  }

  /** The description both tools take: what follows the first `marker`
      in the rest of the line. It is a tail of the line, follows the first
      occurrence of the marker when there is one, and is empty otherwise. */
  lemma DescriptionAfter(line: string, marker: string)
    requires |marker| > 0
    ensures var rest := Head(line).2;
      var d := Partition(rest, marker).2;
      && EndsWith(line, d)
      && (!Contains(rest, marker) ==> d == "")
      && (Contains(rest, marker) ==> FollowsFirst(rest, marker, d))
  {
    var rest := Head(line).2;
    var p := Partition(rest, marker);
    TailOfHead(line);
    PartitionTail(rest, marker);
    EndsWithTrans(line, rest, p.2);
    if Contains(rest, marker) {
      assert |rest| - |marker + p.2| == |p.0|;
    }
  }

  /** A line built as path, ':', a number, ':', rest is read back as those
      three parts when the path holds no ':'. */
  lemma HeadOf(path: string, n: int, rest: string)
    requires ':' !in path
    ensures Head(path + ":" + Decimal(n) + ":" + rest) == (path, Decimal(n), rest)
  {
    var tail := Decimal(n) + ":" + rest;
    assert path + ":" + Decimal(n) + ":" + rest == path + ":" + tail;
    PartitionAtChar(path, ':', tail);
    DecimalHasNoColon(n);
    PartitionAtChar(Decimal(n), ':', rest);
  }
}
