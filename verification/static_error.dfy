/** The finding record every static-analysis tool reports, and its markdown
    rendering. */
module StaticErrors {
  import opened Wrappers
  import opened PyStr

  /** One reported finding. Every field is fixed at construction and read
      back through its accessor; there is no way to change a field later.
      The defaults are those of the record's constructor. */
  datatype StaticError = StaticError(
    file_path: string := "",
    line_no: int := 1,
    code: string := "",
    error_id: int := 0,
    error_name: string := "UNKNOWN ERROR",
    error_description: string := DefaultDescription,
    tool_name: string := "OPTIMUS",
    is_false_positive: bool := false,
    pull_request: int := 0,
    commit_hash: string := ""
  )

  const DefaultDescription: string := "The error reported is unknown. It has not been defined by OPTIMUS."

  const ReportedOnLine: string := " reported on line "

  /** A record built with every argument left out carries the documented defaults. */
  lemma DefaultsOfEmptyConstructor()
    ensures var e := StaticError();
      && e.file_path == "" && e.line_no == 1 && e.code == "" && e.error_id == 0
      && e.error_name == "UNKNOWN ERROR" && e.error_description == DefaultDescription
      && e.tool_name == "OPTIMUS" && !e.is_false_positive && e.pull_request == 0
      && e.commit_hash == ""
  {
  }

  /** `to_md`: "<name> reported on line <line>: <description>" and then the
      code in back quotes on a second line. */
  function ToMd(e: StaticError): (md: string)
    ensures StartsWith(md, e.error_name + ReportedOnLine + Decimal(e.line_no) + ": ")
    ensures EndsWith(md, ": " + e.error_description + "\n`" + e.code + "`")
  {
    e.error_name + ReportedOnLine + Decimal(e.line_no) + ": " + e.error_description + "\n`" + e.code + "`"
  }

  /** The line number can be read back out of a rendered finding: the text
      after the name and " reported on line " up to the first ':' parses to
      `line_no`, provided the name itself contains no ':'. */
  lemma ToMdLineRoundTrip(e: StaticError)
    requires forall i :: 0 <= i < |e.error_name| ==> e.error_name[i] != ':'
    ensures var md := ToMd(e);
      var head := Partition(md, ":").0;
      && StartsWith(head, e.error_name + ReportedOnLine)
      && ParseInt(head[|e.error_name + ReportedOnLine|..]) == Ok(e.line_no)
  {
    var md := ToMd(e);
    var pre := e.error_name + ReportedOnLine;
    var num := Decimal(e.line_no);
    var rest := ": " + e.error_description + "\n`" + e.code + "`";
    assert md == (pre + num) + rest;
    var a := pre + num;
    assert forall i :: 0 <= i < |a| ==> a[i] != ':' by {
      forall i | 0 <= i < |a|
        ensures a[i] != ':'
      {
        if i < |e.error_name| {
          assert a[i] == e.error_name[i];
        } else if i >= |pre| {
          assert a[i] == num[i - |pre|];
        }
      }
    }
    FirstCharSeparator(a, rest, ":");
    DecimalRoundTrip(e.line_no);
    assert a[|pre|..] == num;
  }
}
