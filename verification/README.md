# Static-analysis core of the CAM2 code-review bot, in Dafny

The bot runs static-analysis tools on a pull request's Python files. It
collects what they find as `StaticError` records and posts them as a
Markdown table. This project models the core of that work as pure Dafny
functions, methods and lemmas:

- **The duplicate-code detector** (`DuplicateTool`, built from `Digests`, `SyntaxTree`,
  `CloneSource`, `CloneIndex` and `CloneRanking`):
  - every subtree is digested, in the style of `ast.dump`;
  - every node with a line number whose class is not ignored is indexed under its digest;
  - the groups with more than one member are ranked by score;
  - each member of a group that is large enough becomes a "Duplicate code" finding. Optionally only the first finding per line number is kept.
- **The error record** (`StaticErrors`): its constructor defaults and its Markdown line.
- **The analyzer** (`Analyzer`): a registry of tools, kept in insertion order, which runs them and renders their findings.
- **The mypy and Pyflakes wrappers** (`MyPyTool`, `PyflakesTool`, `ToolCommon`): the check on their configuration, and the reading of the tools' output lines into findings.
- **The command-line splitter** (`CommandArgs`) and **the command registry** (`CommandRegistry`).
- **The validators of the DynamoDB records** (`Validation`).

Supporting modules:
- `Wrappers` holds `Option`, `Result` and the Python exceptions that can be raised.
- `PyStr` gives the Python string operations used: `partition`, `strip`, `startswith`, `in`, `join`, `int()` on text and `%d`.
- `PyValues` holds the JSON-like configuration values.
- `Seqs` holds distinctness and first-occurrence order.

Where the program's own documentation and its code disagree, the model
follows the code:
- the duplicate detector reads its path from the key `FilePath`, not `file_path`;
- it accepts any `min` that `int()` accepts, including zero and negative values;
- it does not check the file's type;
- it indexes a single file;
- the description quotes the whole digest, not a shortened one;
- `Position` descends only through nodes that carry a line number;
- `itertools.groupby` over the file name never reorders the clones, so findings come out group by group, in ranking order.

Each tool's `load_config` keeps the attributes it assigned before raising,
and `configure_tool` keeps the tool in that state; the model carries that
state together with the exception. A run of the analyzer ends at the first
tool that raises.

Also modelled as written: `get_command` raises the registration error's
"already exists" message for an unknown name. The corrected variant is
listed under Findings.

## Model

| member | source | states |
|---|---|---|
| StaticErrors.DefaultsOfEmptyConstructor | cam2_code_review_bot/static_analysis/error.py:10-32 | An error built with no arguments has path "", line 1, empty code, id 0, name "UNKNOWN ERROR", the OPTIMUS default description and tool name, is not a false positive, and has pull request 0 and an empty commit hash |
| StaticErrors.ToMd | cam2_code_review_bot/static_analysis/error.py:84-97 | The Markdown line starts with the name, " reported on line " and the line number, and ends with the description followed by the code in backticks on its own line |
| StaticErrors.ToMdLineRoundTrip | cam2_code_review_bot/static_analysis/error.py:95 | If the error name has no ':', the text before the first ':' of the Markdown line gives back the line number through int() |
| Analyzer.New | cam2_code_review_bot/static_analysis/analyzer.py:13-15 | A new analyzer holds no tools and satisfies the registry invariant (names distinct, order and map agree) |
| Analyzer.GetTool | cam2_code_review_bot/static_analysis/analyzer.py:68-82 | The lookup gives the tool exactly when its name is registered, otherwise None |
| Analyzer.AddTool | cam2_code_review_bot/static_analysis/analyzer.py:17-34 | A taken name without override raises ValueError. Otherwise the tool is stored under its name and every other name answers as before. A new name goes to the end of the running order, and an overridden name keeps its place. The invariant is preserved |
| Analyzer.ConfigureTool | cam2_code_review_bot/static_analysis/analyzer.py:52-66 | An unknown name raises the "does not exist" ValueError and changes nothing. Otherwise the tool becomes whatever its own load_config left behind, even when that raised, and the exception is passed on. Every other tool and the order are unchanged, and the invariant is preserved |
| Analyzer.ConfigureToolFromFile | cam2_code_review_bot/static_analysis/analyzer.py:36-50 | Same cases as configure_tool: an unknown name raises and changes nothing. Otherwise the tool becomes what its file loader left behind, with the loader's exception passed on, while every other tool and the registration order stay as they were |
| Analyzer.RemoveToolAsWritten | cam2_code_review_bot/static_analysis/analyzer.py:84-97 | An absent name answers False with nothing changed, and a registered name raises AttributeError |
| Analyzer.RemoveRegisteredToolFails | cam2_code_review_bot/static_analysis/analyzer.py:94-95 | Removing the only registered tool raises "'dict' object has no attribute 'remove'" |
| Analyzer.RemoveTool | cam2_code_review_bot/static_analysis/analyzer.py:84-97 | Corrected removal: answers whether the name was registered. The name is gone afterwards, all other tools are untouched, the order loses just that name, and the invariant is preserved |
| Analyzer.Run | cam2_code_review_bot/static_analysis/analyzer.py:134-138 | No tools give no findings, and a single tool gives exactly its own result: its findings or its exception |
| Analyzer.RunRaisesFirst | cam2_code_review_bot/static_analysis/analyzer.py:134-138 | The run raises exactly when some tool's run raises, and then with the exception of the first such tool in insertion order |
| Analyzer.RunOrderConcat | cam2_code_review_bot/static_analysis/analyzer.py:134-138 | Running two consecutive parts of the order gives the first part's findings followed by the second's. The second part runs only when the first did not raise, and the first exception wins |
| Analyzer.RunAfterAdd | cam2_code_review_bot/static_analysis/analyzer.py:32-34 | After a tool is added under a new name, it runs last: the run gives the earlier tools' findings and then its own, and it runs only when no earlier tool raised |
| Analyzer.RunAfterOverride | cam2_code_review_bot/static_analysis/analyzer.py:32-34 | Overriding the tool at position i makes the new tool run in that position: after the tools before it, and before the tools after it |
| Analyzer.Rows | cam2_code_review_bot/static_analysis/analyzer.py:125-127 | One table row per finding, in order, holding its name, line, description and code |
| Analyzer.RunMd | cam2_code_review_bot/static_analysis/analyzer.py:109-131 | An exception of the run is passed on. Otherwise no findings give "No static errors reported.", and findings give the rendering of their rows under the four headers |
| Analyzer.RunMdEmptyIff | cam2_code_review_bot/static_analysis/analyzer.py:128-131 | Unless the renderer itself produces that sentence, the report is "No static errors reported." exactly when every tool ran and none found anything |
| CommandRegistry.RegisterCommand | cam2_code_review_bot/commands/command_registry.py:7-22 | A taken name raises the "already exists" ValueError. A new name becomes registered and maps to the given command. The key set grows by exactly that name, and every earlier command is unchanged |
| CommandRegistry.RegisteredIffTaken | cam2_code_review_bot/commands/command_registry.py:20-31 | is_registered_command answers True exactly when register_command would refuse the name, whatever the command, and a name registered afresh answers True |
| CommandRegistry.GetCommandAsWritten | cam2_code_review_bot/commands/command_registry.py:34-45 | A registered name gives its command. An unregistered name raises the registration error, whose message says "already exists" |
| CommandRegistry.MissingCommandReportedAsExisting | cam2_code_review_bot/commands/command_registry.py:43-44 | Looking up any unregistered name fails with "Command with name [name] already exists" |
| CommandRegistry.GetCommand | cam2_code_review_bot/commands/command_registry.py:34-45 | Corrected lookup: a registered name gives its command, and an unregistered one raises a "not registered" ValueError |
| CommandRegistry.GetCommandCorrected | cam2_code_review_bot/commands/command_registry.py:43-45 | The corrected lookup agrees with the written one on registered names, and its error message differs from every registration error |
| CommandRegistry.GetAfterRegister | cam2_code_review_bot/commands/command_registry.py:20-45 | After a fresh registration the name looks up to the new command, and every other name looks up and answers is_registered as before |
| CommandRegistry.RegisterTwiceKeepsFirst | cam2_code_review_bot/commands/command_registry.py:20-22 | A second registration under the same name fails, and the first command stays |
| CommandArgs.ExtractCommandAndArgs | cam2_code_review_bot/utils/extract_command_and_args.py:1-34 | Text without a space is the command with no arguments. Otherwise the command is everything before the first space, and the arguments are what the splitter makes of everything after it, including its unclosed-quote error |
| CommandArgs.SplitArgs | cam2_code_review_bot/utils/extract_command_and_args.py:17-32 | The splitter fails exactly when the text ends inside quotes (an odd number of quotes), with "Quote was not closed in argument". Otherwise there is one more argument than there are spaces outside quotes, the arguments joined together are the text minus its quotes and those spaces, and no argument contains a quote. The boundaries are fixed too: at each space outside quotes, the arguments finished so far joined together are exactly the kept text before that space |
| CommandArgs.ArgumentsBeforeSeparator | cam2_code_review_bot/utils/extract_command_and_args.py:17-32 | At each space outside quotes, the loop has finished one more argument, and the arguments finished so far are exactly the kept text before that space; later characters only append to them |
| CommandArgs.ScanInvariant | cam2_code_review_bot/utils/extract_command_and_args.py:17-25 | The loop state after any prefix agrees with the quote count, the separator count and the kept characters of that prefix |
| CommandArgs.ExtractRoundTrip | cam2_code_review_bot/utils/extract_command_and_args.py:1-34 | A space-free command followed by arguments, each quoted and joined with spaces, is split back into exactly that command and those arguments, whatever spaces the arguments contain |
| Validation.IsDefectAttributesValid | cam2_code_review_bot/dynamodb/validation.py:18-51 | Accepts a defect record exactly when file_name and description, where present, are str, line_numbers a list of int and code_segments a list of str |
| Validation.IsIssueAttributesValid | cam2_code_review_bot/dynamodb/validation.py:68-126 | Accepts an issue record exactly when reviewers and changed_files, where present, are lists of str, parent_issue an int, and child_issues, documentation_defects and logic_defects lists of int |
| Validation.IsReviewerAttributesValid | cam2_code_review_bot/dynamodb/validation.py:147-160 | Accepts a reviewer record exactly when role and role_description, where present, are str |
| Validation.ValidatorsIgnoreUncheckedKeys | cam2_code_review_bot/dynamodb/validation.py:18-160 | The empty record is valid. Dropping keys keeps a record valid, and adding or changing a key no validator checks never changes the verdict |
| Validation.KeyValidatorsAreTypeTests | cam2_code_review_bot/dynamodb/validation.py:7-143 | The defect and issue key validators accept exactly ints, and the reviewer key validator exactly a str name with an int issue number |
| Validation.ListCheckSplits | cam2_code_review_bot/dynamodb/validation.py:32-51 | A list passes the element loop exactly when both its parts do, so one bad element anywhere rejects it |
| ToolCommon.PyIn | cam2_code_review_bot/static_analysis/mypy_tool.py:36 | Python's `in` on the configured value: substring on str, membership on list, key on dict, TypeError otherwise |
| ToolCommon.LoadFilePath | cam2_code_review_bot/static_analysis/mypy_tool.py:31-37 | A missing file_path raises the "[file_type] not defined" ValueError and leaves the attribute as it was. Otherwise the attribute takes the given value before the check, so it keeps it even when refused. The load raises nothing exactly when `'.py' in value` is True, and a str value without ".py" raises the "must have the extension" ValueError |
| ToolCommon.LoadFilePathIsNotASuffixCheck | cam2_code_review_bot/static_analysis/mypy_tool.py:36-37 | The ".py" test is a substring test, so "notes.pyc.txt" is accepted |
| ToolCommon.LoadFilePathKeepsRefusedPath | cam2_code_review_bot/static_analysis/mypy_tool.py:34-37 | Loading "notes.txt" raises the "must have the extension" ValueError, and the tool keeps "notes.txt" as its path |
| ToolCommon.CollectLines | cam2_code_review_bot/static_analysis/mypy_tool.py:55-86 | The loop succeeds exactly when every line parses. It yields at most one finding per line, and a failure is the first failing line's error |
| ToolCommon.OneFindingPerLine | cam2_code_review_bot/static_analysis/pyflakes_tool.py:56-81 | When every line yields a finding, the result is those findings, one per line, in order |
| ToolCommon.FindingsUnskipped | cam2_code_review_bot/static_analysis/mypy_tool.py:55-86 | When a line reader yields nothing exactly on the lines it skips, the findings of a run are those of the other lines, in order |
| ToolCommon.DescriptionAfter | cam2_code_review_bot/static_analysis/mypy_tool.py:72-75 | The description is a suffix of the line. It is empty when the marker is missing. Otherwise it is what follows the first marker after the line number: the rest ends with the marker and the description, and the marker occurs nowhere earlier in the rest |
| MyPyTool.LoadConfig | cam2_code_review_bot/static_analysis/mypy_tool.py:31-37 | A missing file_path raises the "[file_type] not defined" ValueError and leaves the tool unchanged. Otherwise file_path is assigned first, so it holds the given value even when the ".py" test then raises. A str path passes exactly when it contains ".py", and a refused one raises the "must have the extension" ValueError |
| MyPyTool.ParseLine | cam2_code_review_bot/static_analysis/mypy_tool.py:60-84 | "Found" lines yield nothing. Any other line fails exactly when int() rejects the text between its first two colons, and otherwise yields a finding. A finding is a "MyPy Error" whose path is the text before the first colon and whose line is that number. Its description follows the first "error: " after the number, and is empty when there is none |
| MyPyTool.Run | cam2_code_review_bot/static_analysis/mypy_tool.py:55-86 | The run succeeds exactly when every output line parses, and then its findings are the lines' findings in order. A failure is the int() error of the first line that does not parse |
| MyPyTool.RunReportsEachOtherLine | cam2_code_review_bot/static_analysis/mypy_tool.py:55-86 | A run that does not raise reports exactly one finding per output line that does not start with "Found", in order |
| MyPyTool.ParseLineRoundTrip | cam2_code_review_bot/static_analysis/mypy_tool.py:63-82 | A line in mypy's "path:line: error: message" format is read back as that path, line number and message |
| MyPyTool.WordLineRaises | cam2_code_review_bot/static_analysis/mypy_tool.py:63-70 | A line "word: text" whose text starts with a letter makes int() raise, and the whole run fails |
| MyPyTool.CleanRunRaisesAsWritten | cam2_code_review_bot/static_analysis/mypy_tool.py:60-70 | mypy's "Success: no issues found ..." line is not skipped and makes the run raise |
| MyPyTool.ParseLineSkippingSummaries | cam2_code_review_bot/static_analysis/mypy_tool.py:60-61 | Corrected line reader: both summary lines yield nothing, and every other line is read as before |
| MyPyTool.RunSkippingSummaries | cam2_code_review_bot/static_analysis/mypy_tool.py:55-86 | Corrected run: succeeds exactly when every line parses under the corrected reader, and then its findings are the lines' findings in order. A failure is the int() error of the first line that does not parse |
| MyPyTool.RunSkippingSummariesReportsEachOtherLine | cam2_code_review_bot/static_analysis/mypy_tool.py:55-86 | With the correction, a run that does not raise reports exactly one finding per output line that is neither summary, in order |
| MyPyTool.CleanRunReportsNothing | cam2_code_review_bot/static_analysis/mypy_tool.py:60-61 | With the correction, a run whose only line is the success summary reports no findings |
| MyPyTool.ParseLineSkippingSummariesRoundTrip | cam2_code_review_bot/static_analysis/mypy_tool.py:63-82 | The correction still reads every error line back as its path, line number and message |
| PyflakesTool.LoadConfig | cam2_code_review_bot/static_analysis/pyflakes_tool.py:32-38 | Same rules as the mypy wrapper: a missing file_path raises and leaves the tool unchanged. Otherwise the path is assigned before the ".py" test, so a refused path stays assigned, and a str path passes exactly when it contains ".py" |
| PyflakesTool.ParseLine | cam2_code_review_bot/static_analysis/pyflakes_tool.py:59-79 | Every line fails exactly when int() rejects the text between its first two colons, and otherwise yields a "Pyflakes Error". Its path is the text before the first colon and its line that number. Its description is the text after the first space that follows the number, and is empty when there is none |
| PyflakesTool.Run | cam2_code_review_bot/static_analysis/pyflakes_tool.py:56-81 | The run succeeds exactly when every output line parses. Nothing is skipped, so a successful run has exactly one finding per output line, in order. A failure is the int() error of the first line that does not parse |
| PyflakesTool.ParseLineRoundTrip | cam2_code_review_bot/static_analysis/pyflakes_tool.py:60-78 | A line "path:line:col message" is read back as that path, line number and message |
| SyntaxTree.Visit | cam2_code_review_bot/static_analysis/duplicate_tool.py:170-179 | The walk from a node lists the node itself first. The position finder's walk, which stops at nodes without a line, reaches nothing from such a node |
| SyntaxTree.VisitFieldsAsChildren | cam2_code_review_bot/static_analysis/duplicate_tool.py:170-179 | Walking a node's fields is walking its direct child nodes in field order, each followed by its own subtree |
| SyntaxTree.VisitClosed | cam2_code_review_bot/static_analysis/duplicate_tool.py:170-179 | The index's walk reaches every child of every node it reaches, recorded or not |
| SyntaxTree.VisitLined | cam2_code_review_bot/static_analysis/duplicate_tool.py:94-102 | Every node the position finder visits below a clone has a line number |
| Digests.Digest | cam2_code_review_bot/static_analysis/duplicate_tool.py:138-150 | A node's digest starts with its class name and "(" and ends with ")" |
| Digests.DigestIgnoresLines | cam2_code_review_bot/static_analysis/duplicate_tool.py:138-150 | Line numbers take no part in a digest: a node digests like its line-free shape |
| Digests.SameShapeSameDigest | cam2_code_review_bot/static_analysis/duplicate_tool.py:138-150 | Two subtrees of the same shape, at any lines, have equal digests |
| Digests.DifferentShapesShareDigest | cam2_code_review_bot/static_analysis/duplicate_tool.py:138-150 | Limit of the model: two nodes of different shape can share a digest, because a primitive's text may contain the field separator |
| Digests.DigestM | cam2_code_review_bot/static_analysis/duplicate_tool.py:143-147 | The cached digest always equals the uncached one. The cache only grows, keeps every entry correct and afterwards holds the node, and a cached node returns its entry with the cache unchanged |
| CloneSource.WidenAllBounds | cam2_code_review_bot/static_analysis/duplicate_tool.py:94-102 | The visits count every visited node. The span only widens, covers every visited line, and each bound is the starting bound or some visited node's line |
| CloneSource.PositionOf | cam2_code_review_bot/static_analysis/duplicate_tool.py:90-102 | A clone's span contains its own line and every line below it reachable through lined nodes. Each end is its own line or such a line, and the count is the number of those nodes, not including the clone itself |
| CloneSource.LeafPosition | cam2_code_review_bot/static_analysis/duplicate_tool.py:90-93 | A node whose children carry no line spans only its own line and counts zero |
| CloneSource.Slice | cam2_code_review_bot/static_analysis/duplicate_tool.py:114-115 | Python slicing with clamping: in range it is the exact subsequence, past the end it is cut short or empty |
| CloneSource.SourceLines | cam2_code_review_bot/static_analysis/duplicate_tool.py:114-117 | The lines from begin to end (1-based, clamped to the file), each right-stripped and indented |
| CloneSource.Source | cam2_code_review_bot/static_analysis/duplicate_tool.py:108-117 | The clone's span, which contains the node's line, and those lines joined by line breaks |
| CloneIndex.VisitNode | cam2_code_review_bot/static_analysis/duplicate_tool.py:170-178 | A node with no line, or of an ignored class, leaves the index alone. Otherwise its clone is appended to its digest's group, and a new digest is added at the end of the key order |
| CloneIndex.MatchingNonEmpty | cam2_code_review_bot/static_analysis/duplicate_tool.py:170-178 | A digest has clones exactly when some eligible walked node has it |
| CloneIndex.IndexStep | cam2_code_review_bot/static_analysis/duplicate_tool.py:170-179 | One visit preserves the index invariant: keys in first-seen order, and each group being exactly the eligible walked nodes of that digest in walk order |
| CloneIndex.IndexNodes | cam2_code_review_bot/static_analysis/duplicate_tool.py:156-179 | After the walk, the keys are the eligible digests in first-seen order, and each group holds exactly the eligible nodes with that digest, in walk order |
| CloneIndex.Build | cam2_code_review_bot/static_analysis/duplicate_tool.py:156-179 | The index of a file records the digests of the eligible nodes below the module node, in first-seen order. Under each digest it groups exactly those nodes, in walk order |
| CloneIndex.BuildRecordsEligible | cam2_code_review_bot/static_analysis/duplicate_tool.py:162-179 | A node of the file is recorded under its digest exactly when it has a line and an unignored class, and the children of every walked node are walked too |
| CloneIndex.BuildGroupsWellFormed | cam2_code_review_bot/static_analysis/duplicate_tool.py:170-179 | The keys are distinct, and every recorded clone is from the file, eligible and has its group's digest |
| CloneRanking.GroupScore | cam2_code_review_bot/static_analysis/duplicate_tool.py:123-131 | The score is the first clone's node count, the group's size, and the length of the first clone's unindented source |
| CloneRanking.ScoreUsesFirstCloneOnly | cam2_code_review_bot/static_analysis/duplicate_tool.py:129-131 | Groups that agree on their first clone and their size score the same |
| CloneRanking.ScoreLeTotalOrder | cam2_code_review_bot/static_analysis/duplicate_tool.py:184-186 | Tuple comparison of scores is a total order |
| CloneRanking.SortDesc | cam2_code_review_bot/static_analysis/duplicate_tool.py:184-186 | The sort is a permutation of its input |
| CloneRanking.SortDescSpec | cam2_code_review_bot/static_analysis/duplicate_tool.py:184-186 | The sort orders by descending score and keeps the input order among equal scores (stable reverse sort) |
| CloneRanking.Candidates | cam2_code_review_bot/static_analysis/duplicate_tool.py:184-185 | The candidates are exactly the recorded groups with more than one clone |
| CloneRanking.ClonesOf | cam2_code_review_bot/static_analysis/duplicate_tool.py:180-186 | clones() is a permutation of the groups with more than one clone, sorted by descending score |
| CloneRanking.ClonesOfSpec | cam2_code_review_bot/static_analysis/duplicate_tool.py:180-186 | clones() returns exactly the groups of more than one clone, highest score first, with equal scores in the order their digests were first seen |
| DuplicateTool.LoadConfig | cam2_code_review_bot/static_analysis/duplicate_tool.py:23-40 | Assigns FilePath, ignore, min and one_error_per_line in this order, converting the last two with int(). It raises nothing exactly when all four keys are present and both numbers convert, and then all four are set. Otherwise the first missing key raises KeyError, or the first failing conversion raises its error. The attributes assigned before that keep their new values |
| DuplicateTool.LoadConfigOnFresh | cam2_code_review_bot/static_analysis/duplicate_tool.py:36-39 | On a new tool a failed load_config leaves one_error_per_line unset, and a successful one sets every attribute |
| DuplicateTool.LoadConfigReadsText | cam2_code_review_bot/static_analysis/duplicate_tool.py:36-39 | Numbers given as decimal text are read back as those numbers |
| DuplicateTool.LoadConfigConverts | cam2_code_review_bot/static_analysis/duplicate_tool.py:36-39 | Any values int() accepts configure the tool with the converted numbers |
| DuplicateTool.Blacklist | cam2_code_review_bot/static_analysis/duplicate_tool.py:161 | frozenset of the ignore value. A list gives its strings, and fails on unhashable items. A str gives its single characters, a dict its keys, and a number or None raises TypeError |
| DuplicateTool.GroupBy | cam2_code_review_bot/static_analysis/duplicate_tool.py:59-60 | groupby gives maximal non-empty runs with one key each, adjacent runs differ in key, and the runs in turn give back the input |
| DuplicateTool.GroupByOneKey | cam2_code_review_bot/static_analysis/duplicate_tool.py:59 | Clones that all share the file name form a single run |
| DuplicateTool.GroupByFile | cam2_code_review_bot/static_analysis/duplicate_tool.py:59-60 | Iterating a group's runs and then each run visits the clones in their original order |
| DuplicateTool.FindingLine | cam2_code_review_bot/static_analysis/duplicate_tool.py:61-66 | A finding's line is the first line of the clone's span, between 1 and the node's own line |
| DuplicateTool.DescriptionReadsBack | cam2_code_review_bot/static_analysis/duplicate_tool.py:68 | The description's first word reads back through int() as the number of repetitions |
| DuplicateTool.AllFindingsSound | cam2_code_review_bot/static_analysis/duplicate_tool.py:56-81 | Every finding before deduplication belongs to some clone of some group of at least min clones |
| DuplicateTool.AllFindingsComplete | cam2_code_review_bot/static_analysis/duplicate_tool.py:56-81 | Every clone of every group of at least min clones has its finding |
| DuplicateTool.FirstOnLineLines | cam2_code_review_bot/static_analysis/duplicate_tool.py:62-72 | Deduplication loses no line number: the kept findings cover the same lines as all of them |
| DuplicateTool.FirstOnLineDistinct | cam2_code_review_bot/static_analysis/duplicate_tool.py:62-72 | The kept findings have distinct line numbers |
| DuplicateTool.FirstOnLineKeepsFirst | cam2_code_review_bot/static_analysis/duplicate_tool.py:62-72 | Each kept finding is the first one on its line |
| DuplicateTool.KeepStep | cam2_code_review_bot/static_analysis/duplicate_tool.py:62-72 | One loop step: a finding on a new line is appended and its line recorded, and one on a seen line is dropped, matching the reference deduplication |
| DuplicateTool.CloneFinding | cam2_code_review_bot/static_analysis/duplicate_tool.py:61-70 | The finding for one clone, reported on its span's first line, which lies between 1 and the node's line |
| DuplicateTool.ReportGroup | cam2_code_review_bot/static_analysis/duplicate_tool.py:59-81 | Processing one group appends its findings, or with one_error_per_line keeps only those on new lines, and the recorded lines stay the kept findings' lines |
| DuplicateTool.Report | cam2_code_review_bot/static_analysis/duplicate_tool.py:49-83 | The loop yields every finding of every group of at least min clones in ranking order, deduplicated by line exactly when one_error_per_line is 1 |
| DuplicateTool.Run | cam2_code_review_bot/static_analysis/duplicate_tool.py:42-83 | A bad ignore value raises its TypeError, and a non-text path raises TypeError. Otherwise the result is the report over the ranked clone groups of the file |
| DuplicateTool.RunTool | cam2_code_review_bot/static_analysis/duplicate_tool.py:42-83 | Run on the tool as load_config left it. An unassigned attribute raises AttributeError where run first reads it: ignore, then file_path, then one_error_per_line, and min only when there is a group to rank. So a tool without one_error_per_line always fails. A tool with all four set gives the report over the ranked groups |
| DuplicateTool.ReportedAreDuplicates | cam2_code_review_bot/static_analysis/duplicate_tool.py:42-83 | Every reported finding is about an eligible node of the file whose digest occurs at least twice and at least min times, and it quotes that count and digest |
| DuplicateTool.DuplicatesAreReported | cam2_code_review_bot/static_analysis/duplicate_tool.py:42-83 | Conversely, every eligible node whose digest occurs at least twice and at least min times has its finding reported (before deduplication) |

## Left out

- Running the tools (`subprocess.Popen`), decoding their output and `splitlines`: the output lines are the input of the line readers.
- Reading the file (`open(...).readlines()`) and `ast.parse`: the parsed tree and the file's lines are inputs of `DuplicateTool.Run`.
- Primitive field values: they carry their `repr` text as given by the parser; `repr` itself is not modelled.
- The digest cache stores digests on node objects: the model keys it by node value. Since a digest depends only on the value, no result changes.
- `Position`'s lazy initialisation is modelled as a pure function of the node; computing it once or many times gives the same result.
- Python's bool being a subclass of int is not modelled (there are no booleans among the values), nor are floats. `int()` of a float and `Decimal` for non-ASCII digits are left out as well.
- `DuplicateTool.Run`: `open()` on a non-text path is modelled only as a TypeError. The distinct errors Python raises for integers (file descriptors) and paths are not modelled.
- The mypy and Pyflakes `run` read `file_path` only to build the command line of the process. Two errors raised there are left out with the process call. One is the AttributeError of a tool whose path was never assigned. The other is the TypeError of `"mypy " + self.file_path` (cam2_code_review_bot/static_analysis/mypy_tool.py:47) and `"pyflakes " + self.file_path` (cam2_code_review_bot/static_analysis/pyflakes_tool.py:48) when the path is a list or dict. `load_config` accepts such a path whenever it holds `".py"`.
- Digests.Digest: the converse of `Digests.SameShapeSameDigest` (equal digests only for equal shapes) is not claimed. Primitive values are modelled as free `repr` text and a class's field list is not fixed, so `K` with the one field `1, 2` digests like `K` with the two fields `1` and `2` (`Digests.DifferentShapesShareDigest`). Python's quoted string reprs and fixed field lists are not modelled.
- The global `__COMMAND_REGISTRY` dictionary is passed as a value rather than held as module state.
- `tabulate` (the Markdown table renderer) and each tool's `run`, `load_config` and `load_config_from_file` are parameters of the analyzer functions.
- The error logging of the validators (`logging.error`) is left out; only their verdicts are modelled.
- `DuplicateTool.GroupFindings`: states only the number of findings; the finding at each index is given by `DuplicateTool.GroupFindingsAt`.
- The `StaticError` property getters only return the stored fields, which the datatype exposes directly.

## Findings

| source | as written | input that shows it | evidently intended | confidence | as-written member | corrected member |
|---|---|---|---|---|---|---|
| cam2_code_review_bot/static_analysis/analyzer.py:95 | `remove_tool` calls `remove` on a dict | removing any registered tool | delete the entry and answer True | high, not executed | Analyzer.RemoveToolAsWritten, Analyzer.RemoveRegisteredToolFails | Analyzer.RemoveTool |
| cam2_code_review_bot/static_analysis/mypy_tool.py:60-70 | only the "Found ..." summary is skipped | mypy's output "Success: no issues found in 1 source file" makes `int(" no issues found in 1 source file")` raise ValueError | skip the success summary too, so a clean file reports nothing | medium, not executed | MyPyTool.CleanRunRaisesAsWritten | MyPyTool.ParseLineSkippingSummaries, MyPyTool.CleanRunReportsNothing |
| cam2_code_review_bot/commands/command_registry.py:44 | an unregistered name raises "Command with name [x] already exists" | `get_command("x")` on an empty registry | a message saying the command is not registered | high, not executed | CommandRegistry.GetCommandAsWritten, CommandRegistry.MissingCommandReportedAsExisting | CommandRegistry.GetCommand, CommandRegistry.GetCommandCorrected |
