/** The static analyzer: an insertion-ordered map from tool names to tools,
    run in that order. The tool type is a parameter; what a tool does when it
    is configured or run is passed in as a function, because it belongs to
    the tool (and usually starts a subprocess). */
module Analyzer {
  import opened Wrappers
  import opened StaticErrors
  import opened Seqs

  /** The tool map as a Python `dict`: the tools by name, and the order in
      which their names were first inserted. */
  datatype StaticAnalyzer<T> = StaticAnalyzer(order: seq<string>, tools: map<string, T>)

  /** Every name is listed once, and exactly the mapped names are listed. */
  predicate Valid<T>(a: StaticAnalyzer<T>) {
    && Distinct(a.order)
    && (forall n :: n in a.tools ==> n in a.order)
    && (forall n :: n in a.order ==> n in a.tools)
  }

  /** A new analyzer holds no tools. */
  function New<T>(): (a: StaticAnalyzer<T>)
    ensures Valid(a) && |a.order| == 0 && a.tools == map[]
  {
    StaticAnalyzer([], map[])
  }

  /** `get_tool`: the tool registered under `name`, or `None`. */
  function GetTool<T>(a: StaticAnalyzer<T>, name: string): (r: Option<T>)
    ensures r.Some? <==> name in a.tools
    ensures r.Some? ==> r.value == a.tools[name]
  {
    if name in a.tools then Some(a.tools[name]) else None
  }

  /** `add_tool`: refuses to replace an existing tool unless `override` is
      set; otherwise maps the name to the tool, keeping the position of an
      existing name and appending a new one, and touching nothing else. */
  function AddTool<T>(a: StaticAnalyzer<T>, name: string, tool: T, override: bool): (r: Result<StaticAnalyzer<T>, Exception>)
    requires Valid(a)
    ensures name in a.tools && !override
        ==> r == Err(ValueError("tool already exists but override is set to False"))
    ensures !(name in a.tools && !override) ==>
      && r.Ok? && Valid(r.value)
      && GetTool(r.value, name) == Some(tool)
      && (forall other :: other != name ==> GetTool(r.value, other) == GetTool(a, other))
      && r.value.order == if name in a.tools then a.order else a.order + [name]
  {
    if name in a.tools && !override then
      Err(ValueError("tool already exists but override is set to False"))
    else
      Ok(StaticAnalyzer(if name in a.tools then a.order else a.order + [name], a.tools[name := tool]))
  }

  function NoSuchTool(name: string): Exception {
    ValueError("the tool [" + name + "] does not exist in this static analyzer.")
  }

  /** `configure_tool`: an unknown name raises `ValueError` and changes
      nothing; otherwise the tool's own `load_config` runs on the tool in
      place (here `load`). Whatever it assigned before raising stays in the
      tool, so the analyzer keeps the tool `load` leaves behind and passes
      on its exception, if any. */
  function ConfigureTool<T, C>(a: StaticAnalyzer<T>, name: string, config: C, load: (T, C) -> Outcome<T>)
    : (r: Outcome<StaticAnalyzer<T>>)
    requires Valid(a)
    ensures name !in a.tools ==> r == Outcome(a, Some(NoSuchTool(name)))
    ensures name in a.tools ==>
      var o := load(a.tools[name], config);
      && r.raised == o.raised
      && Valid(r.state)
      && GetTool(r.state, name) == Some(o.state)
      && (forall other :: other != name ==> GetTool(r.state, other) == GetTool(a, other))
      && r.state.order == a.order
  {
    match GetTool(a, name)
    case None => Outcome(a, Some(NoSuchTool(name)))
    case Some(tool) =>
      var o := load(tool, config);
      Outcome(StaticAnalyzer(a.order, a.tools[name := o.state]), o.raised)
  }

  /** `configure_tool_from_file`: as `configure_tool`, with the tool reading
      its settings from the file at `path` (here `loadFromFile`). */
  function ConfigureToolFromFile<T>(a: StaticAnalyzer<T>, name: string, path: string, loadFromFile: (T, string) -> Outcome<T>)
    : (r: Outcome<StaticAnalyzer<T>>)
    requires Valid(a)
    ensures name !in a.tools ==> r == Outcome(a, Some(NoSuchTool(name)))
    ensures name in a.tools ==>
      && r.raised == loadFromFile(a.tools[name], path).raised
      && GetTool(r.state, name) == Some(loadFromFile(a.tools[name], path).state)
      && Valid(r.state)
      && (forall other :: other != name ==> GetTool(r.state, other) == GetTool(a, other))
      && r.state.order == a.order
  {
    ConfigureTool(a, name, path, loadFromFile)
  }

  /** `remove_tool` as written: an absent name answers `False`; a present
      one reaches `dict.remove`, which does not exist, and raises. */
  function RemoveToolAsWritten<T>(a: StaticAnalyzer<T>, name: string): (r: Result<(StaticAnalyzer<T>, bool), Exception>)
    ensures name !in a.tools ==> r == Ok((a, false))
    ensures name in a.tools ==> r.Err? && r.error.AttributeError?
  {
    if name in a.tools then
      Err(AttributeError("'dict' object has no attribute 'remove'"))
    else
      Ok((a, false))
  }

  /** Removing a registered tool with the code as written never succeeds:
      the analyzer holding just that tool is a witness. */
  lemma RemoveRegisteredToolFails<T>(name: string, tool: T)
    ensures var a := StaticAnalyzer([name], map[name := tool]);
      && Valid(a)
      && RemoveToolAsWritten(a, name) == Err(AttributeError("'dict' object has no attribute 'remove'"))
  {
  }

  /** The names in `order` other than `name`, in the same order. */
  function Without(order: seq<string>, name: string): (r: seq<string>)
    ensures forall n :: n in r <==> n in order && n != name
    ensures Distinct(order) ==> Distinct(r)
  {
    if |order| == 0 then []
    else
      var rest := Without(order[1..], name);
      assert Distinct(order) ==> order[0] !in order[1..];
      (if order[0] == name then [] else [order[0]]) + rest
  }

  /** `remove_tool` as evidently intended: drop the entry and answer
      `True`, or answer `False` when there is none; the other tools keep
      their entries and their order. */
  function RemoveTool<T>(a: StaticAnalyzer<T>, name: string): (r: (StaticAnalyzer<T>, bool))
    requires Valid(a)
    ensures r.1 <==> name in a.tools
    ensures Valid(r.0)
    ensures GetTool(r.0, name) == None
    ensures forall other :: other != name ==> GetTool(r.0, other) == GetTool(a, other)
    ensures r.0.order == Without(a.order, name)
  {
    if name in a.tools then (StaticAnalyzer(Without(a.order, name), a.tools - {name}), true)
    else
      assert Without(a.order, name) == a.order by { WithoutAbsent(a.order, name); }
      (a, false)
  }

  lemma {:induction false} WithoutAbsent(order: seq<string>, name: string)
    requires name !in order
    ensures Without(order, name) == order
  {
    if |order| > 0 {
      WithoutAbsent(order[1..], name);
    }
  }

  /** What `run()` of a tool, and `__run` of the analyzer, come to: the
      findings, or the exception raised. */
  type RunResult = Result<seq<StaticError>, Exception>

  /** `errors.extend(tool.run())` for one more tool: once a run has raised,
      no later tool runs; otherwise the next tool's exception, or its
      findings appended. */
  function Extend(sofar: RunResult, next: RunResult): RunResult {
    match sofar
    case Err(_) => sofar
    case Ok(errors) =>
      match next
      case Err(e) => Err(e)
      case Ok(more) => Ok(errors + more)
  }

  lemma ExtendAssociative(x: RunResult, y: RunResult, z: RunResult)
    ensures Extend(x, Extend(y, z)) == Extend(Extend(x, y), z)
  {
    if x.Ok? && y.Ok? && z.Ok? {
      assert x.value + (y.value + z.value) == (x.value + y.value) + z.value;
    }
  }

  lemma ExtendNothing(x: RunResult)
    ensures Extend(x, Ok([])) == x
  {
    if x.Ok? {
      assert x.value + [] == x.value;
    }
  }

  /** The tools listed in `order`, run one after another. */
  function RunOrder<T>(order: seq<string>, tools: map<string, T>, run: T -> RunResult): RunResult
    requires forall n :: n in order ==> n in tools
  {
    if |order| == 0 then Ok([]) else Extend(run(tools[order[0]]), RunOrder(order[1..], tools, run))
  }

  /** `__run` (and so `run_raw`): every tool's `run()` output, concatenated
      in insertion order; the first tool that raises ends the run. */
  function Run<T>(a: StaticAnalyzer<T>, run: T -> RunResult): (r: RunResult)
    requires Valid(a)
    ensures |a.order| == 0 ==> r == Ok([])
    ensures |a.order| == 1 ==> r == run(a.tools[a.order[0]])
  {
    assert |a.order| == 1 ==> RunOrder(a.order, a.tools, run) == run(a.tools[a.order[0]]) by {
      if |a.order| == 1 {
        ExtendNothing(run(a.tools[a.order[0]]));
      }
    }
    RunOrder(a.order, a.tools, run)
  }

  /** The tool at position `i` raises, and every tool before it returns. */
  predicate FirstToRaise<T>(order: seq<string>, tools: map<string, T>, run: T -> RunResult, i: int)
    requires forall n :: n in order ==> n in tools
  {
    && 0 <= i < |order|
    && run(tools[order[i]]).Err?
    && forall j :: 0 <= j < i ==> run(tools[order[j]]).Ok?
  }

  lemma {:induction false} RunOrderRaisesIff<T>(order: seq<string>, tools: map<string, T>, run: T -> RunResult)
    requires forall n :: n in order ==> n in tools
    ensures RunOrder(order, tools, run).Err? <==> exists i :: 0 <= i < |order| && run(tools[order[i]]).Err?
  {
    if |order| > 0 {
      var rest := order[1..];
      RunOrderRaisesIff(rest, tools, run);
      if exists i :: 0 <= i < |rest| && run(tools[rest[i]]).Err? {
        var i :| 0 <= i < |rest| && run(tools[rest[i]]).Err?;
        assert run(tools[order[i + 1]]).Err?;
      }
      if exists i :: 0 <= i < |order| && run(tools[order[i]]).Err? {
        var i :| 0 <= i < |order| && run(tools[order[i]]).Err?;
        if i > 0 {
          assert rest[i - 1] == order[i];
        }
      }
    }
  }

  lemma {:induction false} RunOrderFirstRaise<T>(order: seq<string>, tools: map<string, T>, run: T -> RunResult, i: int)
    requires forall n :: n in order ==> n in tools
    requires FirstToRaise(order, tools, run, i)
    ensures RunOrder(order, tools, run) == run(tools[order[i]])
  {
    if i > 0 {
      var rest := order[1..];
      assert run(tools[order[0]]).Ok?;
      assert FirstToRaise(rest, tools, run, i - 1) by {
        forall j | 0 <= j < i - 1
          ensures run(tools[rest[j]]).Ok?
        {
          assert rest[j] == order[j + 1];
        }
        assert rest[i - 1] == order[i];
      }
      RunOrderFirstRaise(rest, tools, run, i - 1);
    }
  }

  /** `__run` raises exactly when some tool's `run` raises, and then with
      the exception of the first such tool in insertion order: the tools
      before it returned and the tools after it never ran. */
  lemma RunRaisesFirst<T>(a: StaticAnalyzer<T>, run: T -> RunResult)
    requires Valid(a)
    ensures Run(a, run).Err? <==> exists i :: 0 <= i < |a.order| && run(a.tools[a.order[i]]).Err?
    ensures forall i :: FirstToRaise(a.order, a.tools, run, i) ==> Run(a, run) == run(a.tools[a.order[i]])
  {
    RunOrderRaisesIff(a.order, a.tools, run);
    forall i | FirstToRaise(a.order, a.tools, run, i)
      ensures Run(a, run) == run(a.tools[a.order[i]])
    {
      RunOrderFirstRaise(a.order, a.tools, run, i);
    }
  }

  lemma {:induction false} RunOrderConcat<T>(s: seq<string>, t: seq<string>, tools: map<string, T>, run: T -> RunResult)
    requires forall n :: n in s + t ==> n in tools
    ensures RunOrder(s + t, tools, run) == Extend(RunOrder(s, tools, run), RunOrder(t, tools, run))
    decreases |s|
  {
    if |s| > 0 {
      assert (s + t)[0] == s[0];
      assert (s + t)[1..] == s[1..] + t;
      RunOrderConcat(s[1..], t, tools, run);
      ExtendAssociative(run(tools[s[0]]), RunOrder(s[1..], tools, run), RunOrder(t, tools, run));
    } else {
      assert s + t == t;
      var rt := RunOrder(t, tools, run);
      assert rt.Ok? ==> [] + rt.value == rt.value;
    }
  }

  /** Changing the tool under a name that is not run changes nothing. */
  lemma {:induction false} RunOrderFrame<T>(order: seq<string>, tools: map<string, T>, name: string, tool: T, run: T -> RunResult)
    requires forall n :: n in order ==> n in tools
    requires name !in order
    ensures RunOrder(order, tools[name := tool], run) == RunOrder(order, tools, run)
  {
    if |order| > 0 {
      RunOrderFrame(order[1..], tools, name, tool, run);
    }
  }

  /** A tool added under a new name runs after every tool added before it:
      its findings come last, and it runs only when none of them raised. */
  lemma RunAfterAdd<T>(a: StaticAnalyzer<T>, name: string, tool: T, override: bool, run: T -> RunResult)
    requires Valid(a) && name !in a.tools
    ensures AddTool(a, name, tool, override).Ok?
    ensures Run(AddTool(a, name, tool, override).value, run) == Extend(Run(a, run), run(tool))
  {
    var tools := a.tools[name := tool];
    RunOrderConcat(a.order, [name], tools, run);
    RunOrderFrame(a.order, a.tools, name, tool, run);
    assert RunOrder([name], tools, run) == run(tool) by {
      ExtendNothing(run(tool));
    }
  }

  /** An overriding tool runs in the position of the one it replaces. */
  lemma RunAfterOverride<T>(a: StaticAnalyzer<T>, i: nat, tool: T, run: T -> RunResult)
    requires Valid(a) && i < |a.order|
    ensures AddTool(a, a.order[i], tool, true).Ok?
    ensures Run(AddTool(a, a.order[i], tool, true).value, run)
         == Extend(Extend(RunOrder(a.order[..i], a.tools, run), run(tool)), RunOrder(a.order[i + 1..], a.tools, run))
  {
    var name := a.order[i];
    var tools := a.tools[name := tool];
    var pre, post := a.order[..i], a.order[i + 1..];
    assert a.order == pre + [name] + post;
    assert name !in pre && name !in post by {
      forall j | 0 <= j < |pre| ensures pre[j] != name {
        assert pre[j] == a.order[j];
      }
      forall j | 0 <= j < |post| ensures post[j] != name {
        assert post[j] == a.order[i + 1 + j];
      }
    }
    assert forall n :: n in pre || n in post ==> n in a.tools && n in tools;
    assert AddTool(a, name, tool, true).value == StaticAnalyzer(a.order, tools);
    assert RunOrder(a.order, tools, run) == Extend(RunOrder(pre + [name], tools, run), RunOrder(post, tools, run)) by {
      RunOrderConcat(pre + [name], post, tools, run);
    }
    assert RunOrder(pre + [name], tools, run) == Extend(RunOrder(pre, tools, run), run(tool)) by {
      RunOrderConcat(pre, [name], tools, run);
      ExtendNothing(run(tool));
    }
    RunOrderFrame(pre, a.tools, name, tool, run);
    RunOrderFrame(post, a.tools, name, tool, run);
  }

  /** One row of the report table: error type, line number, description, code. */
  datatype Row = Row(error_type: string, line_number: int, description: string, code: string)

  const Headers: seq<string> := ["Error Type", "Line Number", "Error Description", "Code"]

  const NoErrorsReported: string := "No static errors reported."

  function Rows(errors: seq<StaticError>): (rows: seq<Row>)
    ensures |rows| == |errors|
    ensures forall i :: 0 <= i < |errors| ==>
      rows[i] == Row(errors[i].error_name, errors[i].line_no, errors[i].error_description, errors[i].code)
  {
    seq(|errors|, i requires 0 <= i < |errors| =>
      Row(errors[i].error_name, errors[i].line_no, errors[i].error_description, errors[i].code))
  }

  /** `run_md`: an exception of the run is passed on; otherwise the fixed
      sentence when no tool reported anything, and the table the formatter
      (`tabulate`) renders from one row per error in run order. */
  function RunMd<T>(a: StaticAnalyzer<T>, run: T -> RunResult, tabulate: (seq<Row>, seq<string>) -> string)
    : (md: Result<string, Exception>)
    requires Valid(a)
    ensures md.Err? <==> Run(a, run).Err?
    ensures md.Err? ==> md.error == Run(a, run).error
    ensures Run(a, run) == Ok([]) ==> md == Ok(NoErrorsReported)
    ensures Run(a, run).Ok? && Run(a, run).value != [] ==> md == Ok(tabulate(Rows(Run(a, run).value), Headers))
  {
    var errors :- Run(a, run);
    if |errors| == 0 then Ok(NoErrorsReported) else Ok(tabulate(Rows(errors), Headers))
  }

  /** With a formatter that never produces the fixed sentence (a table
      always has its header line), the sentence appears exactly when every
      tool ran and none reported an error. */
  lemma RunMdEmptyIff<T>(a: StaticAnalyzer<T>, run: T -> RunResult, tabulate: (seq<Row>, seq<string>) -> string)
    requires Valid(a)
    requires forall rows :: tabulate(rows, Headers) != NoErrorsReported
    ensures RunMd(a, run, tabulate) == Ok(NoErrorsReported) <==> Run(a, run) == Ok([])
  {
  }
}
