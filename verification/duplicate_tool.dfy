/** The duplicate-code tool: its configuration, and `run`, which indexes
    one file, ranks the groups of identical subtrees and reports one
    finding per clone of every group that is large enough, optionally at
    most one finding per line. Reading and parsing the file are outside
    the model: the parsed tree and the file's lines are inputs. */
module DuplicateTool {
  import opened Wrappers
  import opened PyStr
  import opened PyValues
  import opened StaticErrors
  import opened SyntaxTree
  import opened Digests
  import opened CloneSource
  import opened CloneIndex
  import opened CloneRanking

  // ---------------------------------------------------------------------
  // Configuration

  /** The settings `run` reads, once all four are assigned. */
  datatype DuplicateConfig = DuplicateConfig(file_path: Value, ignore: Value, min: int, one_error_per_line: int)

  /** The tool's attributes, each `None` until `load_config` assigns it. */
  datatype DuplicateState = DuplicateState(file_path: Option<Value>, ignore: Option<Value>,
                                           min: Option<int>, one_error_per_line: Option<int>)

  /** A new tool: no attribute is assigned yet. */
  const Fresh: DuplicateState := DuplicateState(None, None, None, None)

  /** `int(v)`: an int is kept, a text is parsed, containers and None are
      refused. */
  function IntOf(v: Value): Result<int, Exception> {
    match v
    case VInt(i) => Ok(i)
    case VStr(s) => ParseInt(s)
    case _ => Err(TypeError("int() argument must be a string or a number"))
  }

  /** `load_config`: assigns "FilePath", "ignore", "min" and
      "one_error_per_line" in this order, converting the last two with
      `int()`. The first missing key or failing conversion raises, and the
      attributes assigned before it keep their new values. The path and
      the ignore list are taken as they are. */
  function LoadConfig(tool: DuplicateState, config: Dict): (r: Outcome<DuplicateState>)
    ensures r.raised.None? <==>
      && "FilePath" in config && "ignore" in config && "min" in config && "one_error_per_line" in config
      && IntOf(config["min"]).Ok? && IntOf(config["one_error_per_line"]).Ok?
    ensures r.raised.None? ==>
      r.state == DuplicateState(Some(config["FilePath"]), Some(config["ignore"]),
                                Some(IntOf(config["min"]).value), Some(IntOf(config["one_error_per_line"]).value))
    ensures "FilePath" !in config ==> r == Outcome(tool, Some(KeyError("FilePath")))
    ensures "FilePath" in config && "ignore" !in config ==>
      r == Outcome(tool.(file_path := Some(config["FilePath"])), Some(KeyError("ignore")))
    ensures "FilePath" in config && "ignore" in config ==>
      && r.state.file_path == Some(config["FilePath"])
      && r.state.ignore == Some(config["ignore"])
    ensures "FilePath" in config && "ignore" in config && "min" !in config ==>
      r == Outcome(tool.(file_path := Some(config["FilePath"]), ignore := Some(config["ignore"])), Some(KeyError("min")))
    ensures "FilePath" in config && "ignore" in config && "min" in config && IntOf(config["min"]).Err? ==>
      r == Outcome(tool.(file_path := Some(config["FilePath"]), ignore := Some(config["ignore"])),
                   Some(IntOf(config["min"]).error))
    ensures "FilePath" in config && "ignore" in config && "min" in config && IntOf(config["min"]).Ok? ==>
      && r.state.min == Some(IntOf(config["min"]).value)
      && ("one_error_per_line" !in config ==> r.raised == Some(KeyError("one_error_per_line")))
      && ("one_error_per_line" in config && IntOf(config["one_error_per_line"]).Err? ==>
            r.raised == Some(IntOf(config["one_error_per_line"]).error) && r.state.one_error_per_line == tool.one_error_per_line)
  {
    if "FilePath" !in config then Outcome(tool, Some(KeyError("FilePath")))
    else
      var s1 := tool.(file_path := Some(config["FilePath"]));
      if "ignore" !in config then Outcome(s1, Some(KeyError("ignore")))
      else
        var s2 := s1.(ignore := Some(config["ignore"]));
        if "min" !in config then Outcome(s2, Some(KeyError("min")))
        else
          match IntOf(config["min"])
          case Err(e) => Outcome(s2, Some(e))
          case Ok(min) =>
            var s3 := s2.(min := Some(min));
            if "one_error_per_line" !in config then Outcome(s3, Some(KeyError("one_error_per_line")))
            else
              match IntOf(config["one_error_per_line"])
              case Err(e) => Outcome(s3, Some(e))
              case Ok(perLine) => Outcome(s3.(one_error_per_line := Some(perLine)), None)
  }

  /** On a new tool, `load_config` assigns `one_error_per_line` only after
      `min`, and only by succeeding: a failed configuration leaves
      `one_error_per_line` unset, and a successful one leaves every
      attribute set. */
  lemma LoadConfigOnFresh(config: Dict)
    ensures var r := LoadConfig(Fresh, config);
      && (r.raised.Some? ==> r.state.one_error_per_line.None?)
      && (r.raised.None? <==> Complete(r.state))
  {
  }

  /** Every attribute `run` reads is assigned. */
  predicate Complete(s: DuplicateState) {
    s.file_path.Some? && s.ignore.Some? && s.min.Some? && s.one_error_per_line.Some?
  }

  /** The settings of a tool whose attributes are all assigned. */
  function Settings(s: DuplicateState): DuplicateConfig
    requires Complete(s)
  {
    DuplicateConfig(s.file_path.value, s.ignore.value, s.min.value, s.one_error_per_line.value)
  }

  /** `int(str(n)) == n` for a setting. */
  lemma IntOfDecimal(n: int)
    ensures IntOf(VStr(Decimal(n))) == Ok(n)
  {
    DecimalRoundTrip(n);
  }

  /** The path and the ignore setting are kept as given, and the two numbers
      are what `int()` makes of their settings. */
  lemma LoadConfigConverts(tool: DuplicateState, path: Value, ignore: Value, minValue: Value, perLineValue: Value,
                           min: int, perLine: int)
    requires IntOf(minValue) == Ok(min) && IntOf(perLineValue) == Ok(perLine)
    ensures LoadConfig(tool, map["FilePath" := path, "ignore" := ignore, "min" := minValue,
                                 "one_error_per_line" := perLineValue])
      == Outcome(DuplicateState(Some(path), Some(ignore), Some(min), Some(perLine)), None)
  {
  }

  /** Numbers written as text in the configuration are read back. */
  lemma LoadConfigReadsText(tool: DuplicateState, path: Value, ignore: Value, min: int, perLine: int)
    ensures LoadConfig(tool, map["FilePath" := path, "ignore" := ignore, "min" := VStr(Decimal(min)),
                                 "one_error_per_line" := VStr(Decimal(perLine))])
      == Outcome(DuplicateState(Some(path), Some(ignore), Some(min), Some(perLine)), None)
  {
    IntOfDecimal(min);
    IntOfDecimal(perLine);
    LoadConfigConverts(tool, path, ignore, VStr(Decimal(min)), VStr(Decimal(perLine)), min, perLine);
  }

  /** `frozenset(ignore)`, as far as the index uses it: which class names
      it holds. A list gives its text items (and raises on an unhashable
      item), a text gives its single characters, a dict its keys; a number
      or None is not iterable. */
  function Blacklist(v: Value): (r: Result<set<string>, Exception>)
    ensures v.VList? ==> (r.Ok? <==> forall i :: 0 <= i < |v.items| ==> !v.items[i].VList? && !v.items[i].VDict?)
    ensures v.VList? && r.Ok? ==> forall k :: k in r.value <==> VStr(k) in v.items
    ensures v.VStr? ==> r.Ok? && forall k :: k in r.value <==> |k| == 1 && k[0] in v.s
    ensures v.VDict? ==> r == Ok(v.entries.Keys)
    ensures v.VInt? || v.VOther? ==> r.Err? && r.error.TypeError?
  {
    match v
    case VList(items) =>
      if exists i :: 0 <= i < |items| && (items[i].VList? || items[i].VDict?) then
        Err(TypeError("unhashable type"))
      else
        var names := set i | 0 <= i < |items| && items[i].VStr? :: items[i].s;
        assert forall k :: k in names <==> VStr(k) in items by {
          forall k
            ensures k in names <==> VStr(k) in items
          {
            if VStr(k) in items {
              var i :| 0 <= i < |items| && items[i] == VStr(k);
              assert items[i].s in names;
            }
          }
        }
        Ok(names)
    case VStr(s) =>
      var chars := set i | 0 <= i < |s| :: [s[i]];
      assert forall k :: k in chars <==> |k| == 1 && k[0] in s by {
        forall k
          ensures k in chars <==> |k| == 1 && k[0] in s
        {
          if |k| == 1 && k[0] in s {
            var i :| 0 <= i < |s| && s[i] == k[0];
            assert [s[i]] == k;
          }
        }
      }
      Ok(chars)
    case VDict(entries) => Ok(entries.Keys)
    case _ => Err(TypeError("object is not iterable"))
  }

  // ---------------------------------------------------------------------
  // `itertools.groupby` over the clones of a group

  function Flatten<T>(runs: seq<seq<T>>): seq<T> {
    if |runs| == 0 then [] else runs[0] + Flatten(runs[1..])
  }

  /** `groupby(s, key)`: the maximal runs of consecutive elements with equal
      keys. Iterating the runs and then each run visits `s` in order. */
  function GroupBy<T, K(==)>(s: seq<T>, key: T -> K): (r: seq<seq<T>>)
    ensures Flatten(r) == s
    ensures forall i :: 0 <= i < |r| ==> |r[i]| > 0
    ensures forall i, j :: 0 <= i < |r| && 0 <= j < |r[i]| ==> key(r[i][j]) == key(r[i][0])
    ensures forall i :: 0 <= i < |r| - 1 ==> key(r[i][0]) != key(r[i + 1][0])
  {
    if |s| == 0 then []
    else
      var rest := GroupBy(s[1..], key);
      if |rest| > 0 && key(rest[0][0]) == key(s[0]) then
        var r := [[s[0]] + rest[0]] + rest[1..];
        assert Flatten(r) == [s[0]] + rest[0] + Flatten(rest[1..]);
        assert s == [s[0]] + s[1..];
        r
      else
        var r := [[s[0]]] + rest;
        assert r[1..] == rest;
        assert s == [s[0]] + s[1..];
        r
  }

  /** All clones of a group come from the indexed file, so `groupby` over
      the file name yields the whole group as one run. */
  lemma {:induction false} GroupByOneKey<T, K>(s: seq<T>, key: T -> K)
    requires |s| > 0
    requires forall i :: 0 <= i < |s| ==> key(s[i]) == key(s[0])
    ensures GroupBy(s, key) == [s]
  {
    if |s| > 1 {
      GroupByOneKey(s[1..], key);
      var rest := GroupBy(s[1..], key);
      assert rest == [s[1..]];
      assert key(rest[0][0]) == key(s[0]) by {
        assert rest[0][0] == s[1];
      }
      assert GroupBy(s, key) == [[s[0]] + rest[0]] + rest[1..];
      assert rest[1..] == [];
      assert [s[0]] + s[1..] == s;
    } else {
      assert GroupBy(s[1..], key) == [];
      assert GroupBy(s, key) == [[s[0]]] + [];
      assert [s[0]] == s;
    }
  }

  /** The clones of a group in the order the two nested loops over
      `groupby(clones, lambda clone: clone.file.name)` visit them: the
      group's own order. */
  method GroupByFile(clones: seq<Clone>) returns (ordered: seq<Clone>)
    ensures ordered == clones
  {
    ordered := Flatten(GroupBy(clones, (c: Clone) => c.file.name));
  }

  // ---------------------------------------------------------------------
  // The findings

  const ErrorName: string := "Duplicate code"

  /** The indent given to `source`; `lstrip` removes it again from the
      first line only. */
  const CodeIndent: string := "        "

  /** "<n> repeated instances of: '<digest>'". */
  function Description(reps: int, expr: string): string {
    Decimal(reps) + " repeated instances of: '" + expr + "'"
  }

  /** The finding for one clone of a group of `reps` clones with digest
      `expr`: it sits on the clone's first line and quotes its code. */
  function Finding(path: string, reps: int, expr: string, c: Clone): StaticError {
    StaticError(file_path := path, line_no := PositionOf(c.node).begin, error_name := ErrorName,
                error_description := Description(reps, expr), code := LStrip(Source(c, CodeIndent).2))
  }

  /** A finding points at the clone's first line, at or above the node's
      own line. */
  lemma FindingLine(path: string, reps: int, expr: string, c: Clone)
    ensures var e := Finding(path, reps, expr, c);
      1 <= e.line_no <= c.node.line.value && e.line_no == Source(c, "").0
  {
  }

  /** The description reads back the number of clones: its first word
      parses to it. */
  lemma DescriptionReadsBack(reps: int, expr: string)
    ensures ParseInt(Partition(Description(reps, expr), " ").0) == Ok(reps)
  {
    var number := Decimal(reps);
    var rest := " repeated instances of: '" + expr + "'";
    assert Description(reps, expr) == number + rest;
    assert Partition(number + rest, " ").0 == number by {
      DecimalChars(reps);
      FirstCharSeparator(number, rest, " ");
    }
    DecimalRoundTrip(reps);
  }

  /** The findings of one group, one per clone, in order. */
  function GroupFindings(path: string, g: Group): (r: seq<StaticError>)
    ensures |r| == |g.1|
  {
    seq(|g.1|, k requires 0 <= k < |g.1| => Finding(path, |g.1|, g.0, g.1[k]))
  }

  lemma GroupFindingsAt(path: string, g: Group, k: nat)
    requires k < |g.1|
    ensures GroupFindings(path, g)[k] == Finding(path, |g.1|, g.0, g.1[k])
  {
  }

  /** The findings of the groups with at least `min` clones, group after
      group and clone after clone, before any filtering by line. */
  function AllFindings(path: string, groups: seq<Group>, min: int): seq<StaticError> {
    if |groups| == 0 then []
    else
      var g := groups[|groups| - 1];
      AllFindings(path, groups[..|groups| - 1], min) + (if |g.1| >= min then GroupFindings(path, g) else [])
  }

  lemma {:induction false} AllFindingsSound(path: string, groups: seq<Group>, min: int, e: StaticError)
    requires e in AllFindings(path, groups, min)
    ensures exists i, k :: (0 <= i < |groups| && 0 <= k < |groups[i].1| && |groups[i].1| >= min
                            && e == Finding(path, |groups[i].1|, groups[i].0, groups[i].1[k]))
  {
    var n := |groups| - 1;
    var front := groups[..n];
    var g := groups[n];
    if e in AllFindings(path, front, min) {
      AllFindingsSound(path, front, min, e);
      var i, k :| 0 <= i < |front| && 0 <= k < |front[i].1| && |front[i].1| >= min
        && e == Finding(path, |front[i].1|, front[i].0, front[i].1[k]);
      assert groups[i] == front[i];
    } else {
      var k :| 0 <= k < |g.1| && GroupFindings(path, g)[k] == e;
      assert 0 <= n < |groups| && 0 <= k < |groups[n].1| && |groups[n].1| >= min;
    }
  }

  lemma {:induction false} AllFindingsComplete(path: string, groups: seq<Group>, min: int, i: nat, k: nat)
    requires i < |groups| && k < |groups[i].1| && |groups[i].1| >= min
    ensures GroupFindings(path, groups[i])[k] in AllFindings(path, groups, min)
  {
    var n := |groups| - 1;
    if i < n {
      AllFindingsComplete(path, groups[..n], min, i, k);
      assert groups[..n][i] == groups[i];
    } else {
      assert AllFindings(path, groups, min) == AllFindings(path, groups[..n], min) + GroupFindings(path, groups[n]);
    }
  }

  // ---------------------------------------------------------------------
  // One finding per line

  /** The line numbers of findings, in order (`line_error`). */
  function Lines(es: seq<StaticError>): (r: seq<int>)
    ensures |r| == |es|
    ensures forall i :: 0 <= i < |es| ==> r[i] == es[i].line_no
  {
    seq(|es|, i requires 0 <= i < |es| => es[i].line_no)
  }

  /** The findings that no earlier finding shares a line with. */
  function FirstOnLine(es: seq<StaticError>): seq<StaticError> {
    if |es| == 0 then []
    else
      var front := es[..|es| - 1];
      var e := es[|es| - 1];
      FirstOnLine(front) + (if e.line_no in Lines(front) then [] else [e])
  }

  lemma LinesSnoc(es: seq<StaticError>, e: StaticError)
    ensures Lines(es + [e]) == Lines(es) + [e.line_no]
  {
  }

  lemma FirstOnLineUnfold(es: seq<StaticError>, e: StaticError)
    ensures FirstOnLine(es + [e]) == FirstOnLine(es) + (if e.line_no in Lines(es) then [] else [e])
  {
    assert (es + [e])[..|es|] == es;
  }

  /** The filter keeps a line for each line that has a finding, and no
      other. */
  lemma {:induction false} FirstOnLineLines(es: seq<StaticError>)
    ensures forall l :: l in Lines(FirstOnLine(es)) <==> l in Lines(es)
  {
    if |es| > 0 {
      var n := |es| - 1;
      var front := es[..n];
      var e := es[n];
      assert es == front + [e];
      FirstOnLineLines(front);
      FirstOnLineUnfold(front, e);
      LinesSnoc(front, e);
      var p := FirstOnLine(front);
      forall l
        ensures l in Lines(FirstOnLine(es)) <==> l in Lines(es)
      {
        assert l in Lines(es) <==> l in Lines(front) || l == e.line_no;
        if e.line_no !in Lines(front) {
          LinesSnoc(p, e);
          assert FirstOnLine(es) == p + [e];
          assert l in Lines(FirstOnLine(es)) <==> l in Lines(p) || l == e.line_no;
        } else {
          assert FirstOnLine(es) == p;
        }
      }
    }
  }

  /** The filter keeps at most one finding per line. */
  lemma {:induction false} FirstOnLineDistinct(es: seq<StaticError>)
    ensures Seqs.Distinct(Lines(FirstOnLine(es)))
  {
    if |es| > 0 {
      var n := |es| - 1;
      var front := es[..n];
      var e := es[n];
      assert es == front + [e];
      FirstOnLineDistinct(front);
      FirstOnLineUnfold(front, e);
      if e.line_no !in Lines(front) {
        FirstOnLineLines(front);
        LinesSnoc(FirstOnLine(front), e);
      }
    }
  }

  /** Each finding the filter keeps is the first finding on its line. */
  lemma {:induction false} FirstOnLineKeepsFirst(es: seq<StaticError>, i: nat)
    requires i < |FirstOnLine(es)|
    ensures exists k :: (0 <= k < |es| && es[k] == FirstOnLine(es)[i]
                         && forall j :: 0 <= j < k ==> es[j].line_no != es[k].line_no)
  {
    var n := |es| - 1;
    var front := es[..n];
    var e := es[n];
    assert es == front + [e];
    FirstOnLineUnfold(front, e);
    var p := FirstOnLine(front);
    if i < |p| {
      FirstOnLineKeepsFirst(front, i);
      var k :| 0 <= k < |front| && front[k] == p[i]
        && forall j :: 0 <= j < k ==> front[j].line_no != front[k].line_no;
      assert es[k] == front[k];
    } else {
      assert FirstOnLine(es)[i] == e && e.line_no !in Lines(front);
      forall j | 0 <= j < n
        ensures es[j].line_no != es[n].line_no
      {
        assert Lines(front)[j] == es[j].line_no;
      }
    }
  }

  /** A finding is kept exactly when no finding kept so far is on its line. */
  lemma FirstOnLineSnoc(es: seq<StaticError>, e: StaticError)
    ensures FirstOnLine(es + [e]) == FirstOnLine(es) + (if e.line_no in Lines(FirstOnLine(es)) then [] else [e])
  {
    FirstOnLineUnfold(es, e);
    FirstOnLineLines(es);
  }

  // ---------------------------------------------------------------------
  // The reporting loop and `run`

  lemma AllFindingsSnoc(path: string, groups: seq<Group>, min: int, i: nat)
    requires i < |groups|
    ensures AllFindings(path, groups[..i + 1], min)
      == AllFindings(path, groups[..i], min) + (if |groups[i].1| >= min then GroupFindings(path, groups[i]) else [])
  {
    assert groups[..i + 1][..i] == groups[..i];
  }

  lemma PrefixSnoc<T>(before: seq<T>, s: seq<T>, j: nat)
    requires j < |s|
    ensures before + s[..j + 1] == (before + s[..j]) + [s[j]]
  {
  }

  /** One step of the one-per-line filter, told by the kept lines. */
  lemma KeepStep(sofar: seq<StaticError>, e: StaticError, errors: seq<StaticError>, lineError: seq<int>)
    requires errors == FirstOnLine(sofar) && lineError == Lines(errors)
    ensures e.line_no !in lineError ==> FirstOnLine(sofar + [e]) == errors + [e] && lineError + [e.line_no] == Lines(errors + [e])
    ensures e.line_no in lineError ==> FirstOnLine(sofar + [e]) == errors
  {
    FirstOnLineSnoc(sofar, e);
    LinesSnoc(errors, e);
  }

  /** The finding `run` builds for one clone, from `source(' ' * 8)`: the
      clone's first line and its code with the indent of the first line
      stripped. */
  method CloneFinding(path: string, reps: int, expr: string, clone: Clone) returns (begin: int, staticError: StaticError)
    ensures staticError == Finding(path, reps, expr, clone) && begin == staticError.line_no
    ensures 1 <= begin <= clone.node.line.value
  {
    var (first, _, source) := Source(clone, CodeIndent);
    begin := first;
    staticError := StaticError(file_path := path, line_no := begin, error_name := ErrorName,
                               error_description := Description(reps, expr), code := LStrip(source));
  }

  /** The inner loops of `run` for one group that is large enough: each
      clone, in the order `groupby` yields them, gets a finding; when
      `onePerLine` holds, a finding on a line already in `line_error` is
      dropped. `before` are the findings of the earlier groups. */
  method ReportGroup(path: string, g: Group, onePerLine: bool, errors0: seq<StaticError>, lineError0: seq<int>,
                     ghost before: seq<StaticError>)
    returns (errors: seq<StaticError>, lineError: seq<int>)
    requires onePerLine ==> errors0 == FirstOnLine(before) && lineError0 == Lines(errors0)
    requires !onePerLine ==> errors0 == before
    ensures onePerLine ==> errors == FirstOnLine(before + GroupFindings(path, g)) && lineError == Lines(errors)
    ensures !onePerLine ==> errors == before + GroupFindings(path, g)
  {
    var (expr, clones) := g;
    var repetitions := |clones|;
    ghost var found := GroupFindings(path, g);
    errors, lineError := errors0, lineError0;
    var ordered := GroupByFile(clones);
    assert before + found[..0] == before;
    for j := 0 to |ordered|
      invariant onePerLine ==> errors == FirstOnLine(before + found[..j]) && lineError == Lines(errors)
      invariant !onePerLine ==> errors == before + found[..j]
    {
      var clone := ordered[j];
      var begin, staticError := CloneFinding(path, repetitions, expr, clone);
      GroupFindingsAt(path, g, j);
      assert staticError == found[j];
      PrefixSnoc(before, found, j);
      ghost var sofar := before + found[..j];
      assert before + found[..j + 1] == sofar + [staticError];
      if onePerLine {
        KeepStep(sofar, staticError, errors, lineError);
        if begin !in lineError {
          lineError := lineError + [begin];
          errors := errors + [staticError];
        }
      } else {
        errors := errors + [staticError];
      }
    }
    assert found[..|ordered|] == found;
  }

  /** The loop of `run` over the ranked groups: a group with fewer than
      `min` clones is skipped, the clones of the others are reported. */
  method Report(path: string, groups: seq<Group>, min: int, oneErrorPerLine: int)
    returns (errors: seq<StaticError>)
    ensures oneErrorPerLine == 1 ==> errors == FirstOnLine(AllFindings(path, groups, min))
    ensures oneErrorPerLine != 1 ==> errors == AllFindings(path, groups, min)
  {
    var onePerLine := oneErrorPerLine == 1;
    errors := [];
    var lineError: seq<int> := [];
    for i := 0 to |groups|
      invariant onePerLine ==> errors == FirstOnLine(AllFindings(path, groups[..i], min)) && lineError == Lines(errors)
      invariant !onePerLine ==> errors == AllFindings(path, groups[..i], min)
    {
      var repetitions := |groups[i].1|;
      AllFindingsSnoc(path, groups, min, i);
      if repetitions >= min {
        errors, lineError := ReportGroup(path, groups[i], onePerLine, errors, lineError,
                                         AllFindings(path, groups[..i], min));
      } else {
        assert AllFindings(path, groups[..i + 1], min) == AllFindings(path, groups[..i], min);
      }
    }
    assert groups[..|groups|] == groups;
  }

  /** `run`: builds the index over `tree` (the parsed file, whose lines are
      `lines`) with the ignore list as blacklist, and reports the ranked
      groups. An ignore setting that is not a collection of names, or a
      path that is not a text, raises before anything is reported. */
  method Run(cfg: DuplicateConfig, tree: Node, lines: seq<string>) returns (r: Result<seq<StaticError>, Exception>)
    ensures r.Ok? <==> Blacklist(cfg.ignore).Ok? && cfg.file_path.VStr?
    ensures Blacklist(cfg.ignore).Err? ==> r == Err(Blacklist(cfg.ignore).error)
    ensures r.Ok? ==>
      var ix := Build(Blacklist(cfg.ignore).value, tree, SourceFile(cfg.file_path.s, lines));
      var all := AllFindings(cfg.file_path.s, ClonesOf(ix), cfg.min);
      r.value == if cfg.one_error_per_line == 1 then FirstOnLine(all) else all
  {
    var blacklist := Blacklist(cfg.ignore);
    if blacklist.Err? {
      return Err(blacklist.error);
    }
    if !cfg.file_path.VStr? {
      return Err(TypeError("expected str, bytes or os.PathLike object"));
    }
    var path := cfg.file_path.s;
    var sources := Build(blacklist.value, tree, SourceFile(path, lines));
    var errors := Report(path, ClonesOf(sources), cfg.min, cfg.one_error_per_line);
    return Ok(errors);
  }

  /** The `AttributeError` of reading an attribute `load_config` has not
      assigned. */
  function NoAttribute(name: string): Exception {
    AttributeError("'DuplicateTool' object has no attribute '" + name + "'")
  }

  /** The ignore list and the path are assigned, the ignore list is a
      collection of names and the path is a text: the file gets indexed. */
  predicate Indexable(s: DuplicateState) {
    s.ignore.Some? && Blacklist(s.ignore.value).Ok? && s.file_path.Some? && s.file_path.value.VStr?
  }

  /** `run` on the tool as `load_config` left it, reading the attributes
      where the source reads them: `ignore` when the index is made, then
      `file_path` when the file is added, then `one_error_per_line`, and
      `min` only at the first ranked group. An unassigned attribute raises
      when it is read. */
  method RunTool(s: DuplicateState, tree: Node, lines: seq<string>) returns (r: Result<seq<StaticError>, Exception>)
    ensures s.ignore.None? ==> r == Err(NoAttribute("ignore"))
    ensures s.ignore.Some? && Blacklist(s.ignore.value).Err? ==> r == Err(Blacklist(s.ignore.value).error)
    ensures s.ignore.Some? && Blacklist(s.ignore.value).Ok? && s.file_path.None? ==> r == Err(NoAttribute("file_path"))
    ensures s.ignore.Some? && Blacklist(s.ignore.value).Ok? && s.file_path.Some? && !s.file_path.value.VStr? ==>
      r.Err? && r.error.TypeError?
    ensures s.one_error_per_line.None? ==> r.Err?
    ensures Indexable(s) && s.one_error_per_line.None? ==> r == Err(NoAttribute("one_error_per_line"))
    ensures Indexable(s) && s.one_error_per_line.Some? && s.min.None? ==>
      var ix := Build(Blacklist(s.ignore.value).value, tree, SourceFile(s.file_path.value.s, lines));
      r == if ClonesOf(ix) == [] then Ok([]) else Err(NoAttribute("min"))
    ensures Complete(s) ==>
      && (r.Ok? <==> Blacklist(s.ignore.value).Ok? && s.file_path.value.VStr?)
      && (r.Ok? ==>
            var ix := Build(Blacklist(s.ignore.value).value, tree, SourceFile(s.file_path.value.s, lines));
            var all := AllFindings(s.file_path.value.s, ClonesOf(ix), s.min.value);
            r.value == if s.one_error_per_line.value == 1 then FirstOnLine(all) else all)
  {
    if s.ignore.None? {
      return Err(NoAttribute("ignore"));
    }
    var blacklist := Blacklist(s.ignore.value);
    if blacklist.Err? {
      return Err(blacklist.error);
    }
    if s.file_path.None? {
      return Err(NoAttribute("file_path"));
    }
    if !s.file_path.value.VStr? {
      return Err(TypeError("expected str, bytes or os.PathLike object"));
    }
    if s.one_error_per_line.None? {
      return Err(NoAttribute("one_error_per_line"));
    }
    if s.min.None? {
      var sources := Build(blacklist.value, tree, SourceFile(s.file_path.value.s, lines));
      if ClonesOf(sources) == [] {
        return Ok([]);
      }
      return Err(NoAttribute("min"));
    }
    r := Run(Settings(s), tree, lines);
  }

  // ---------------------------------------------------------------------
  // What the reported findings mean

  /** Every finding (before the per-line filter, hence also after it) is
      about an eligible node of the file, and reports how many eligible
      nodes share that node's digest: at least two, and at least `min`. */
  lemma ReportedAreDuplicates(blacklist: set<string>, tree: Node, file: SourceFile, path: string, min: int, e: StaticError)
    requires e in AllFindings(path, ClonesOf(Build(blacklist, tree, file)), min)
    ensures exists c: Clone ::
      var reps := |Matching(blacklist, VisitFields(tree.fields, false), file, Digest(c.node))|;
      && c.file == file && c.node in VisitFields(tree.fields, false) && Eligible(c.node, blacklist)
      && reps >= 2 && reps >= min
      && e == Finding(path, reps, Digest(c.node), c)
  {
    var ns := VisitFields(tree.fields, false);
    var ix := Build(blacklist, tree, file);
    var groups := ClonesOf(ix);
    AllFindingsSound(path, groups, min, e);
    var i, k :| 0 <= i < |groups| && 0 <= k < |groups[i].1| && |groups[i].1| >= min
      && e == Finding(path, |groups[i].1|, groups[i].0, groups[i].1[k]);
    ClonesOfSpec(ix);
    var (d, cl) := groups[i];
    assert groups[i] in groups;
    assert cl == Matching(blacklist, ns, file, d);
    var c := cl[k];
    MatchingSound(blacklist, ns, file, d, c);
  }

  /** Conversely, every eligible node whose digest at least two and at
      least `min` eligible nodes share gets its finding. */
  lemma DuplicatesAreReported(blacklist: set<string>, tree: Node, file: SourceFile, path: string, min: int, m: Node)
    requires m in VisitFields(tree.fields, false) && Eligible(m, blacklist)
    requires var reps := |Matching(blacklist, VisitFields(tree.fields, false), file, Digest(m))|;
      reps >= 2 && reps >= min
    ensures var reps := |Matching(blacklist, VisitFields(tree.fields, false), file, Digest(m))|;
      Finding(path, reps, Digest(m), Clone(m, file)) in AllFindings(path, ClonesOf(Build(blacklist, tree, file)), min)
  {
    var ns := VisitFields(tree.fields, false);
    var ix := Build(blacklist, tree, file);
    var d := Digest(m);
    var cl := Matching(blacklist, ns, file, d);
    MatchingNonEmpty(blacklist, ns, file, d);
    assert d in ix.keys;
    assert ix.groups[d] == cl;
    ClonesOfSpec(ix);
    var groups := ClonesOf(ix);
    assert (d, ix.groups[d]) in groups;
    var i :| 0 <= i < |groups| && groups[i] == (d, cl);
    MatchingComplete(blacklist, ns, file, m);
    var k :| 0 <= k < |cl| && cl[k] == Clone(m, file);
    AllFindingsComplete(path, groups, min, i, k);
  }
}
