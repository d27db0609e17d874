/** Type checks on the records stored for defects, issues and reviewers.
    Each attribute check applies only when its key is present; keys nobody
    checks are ignored. */
module Validation {
  import opened PyValues

  /** The type a checked attribute must have. */
  datatype FieldType = Str | Int | ListOfStr | ListOfInt

  /** `isinstance` tests, including the element loop for lists. */
  predicate HasType(v: Value, t: FieldType) {
    match t
    case Str => v.VStr?
    case Int => v.VInt?
    case ListOfStr => v.VList? && forall i :: 0 <= i < |v.items| ==> v.items[i].VStr?
    case ListOfInt => v.VList? && forall i :: 0 <= i < |v.items| ==> v.items[i].VInt?
  }

  /** One `if key in record.keys(): if not isinstance(...)` block. */
  predicate Check(record: Dict, key: string, t: FieldType) {
    key in record ==> HasType(record[key], t)
  }

  /** `isDefectKeyValid`: the defect number is an int. */
  predicate IsDefectKeyValid(defectNumber: Value) {
    HasType(defectNumber, Int)
  }

  /** `isDefectAttributesValid`: accepts exactly the records that conform
      to the defect schema. */
  function IsDefectAttributesValid(defect: Dict): (b: bool)
    ensures b <==> Conforms(defect, DefectSchema)
  {
    var b :=
      && Check(defect, "file_name", Str)
      && Check(defect, "description", Str)
      && Check(defect, "line_numbers", ListOfInt)
      && Check(defect, "code_segments", ListOfStr);
    assert b <==> Conforms(defect, DefectSchema) by {
      if b {
        forall k | k in DefectSchema && k in defect
          ensures HasType(defect[k], DefectSchema[k])
        {
          assert Check(defect, k, DefectSchema[k]);
        }
      }
      if Conforms(defect, DefectSchema) {
        assert Check(defect, "file_name", DefectSchema["file_name"]);
        assert Check(defect, "description", DefectSchema["description"]);
        assert Check(defect, "line_numbers", DefectSchema["line_numbers"]);
        assert Check(defect, "code_segments", DefectSchema["code_segments"]);
      }
    }
    b
  }

  /** `isIssueKeyValid`: the issue number is an int. */
  predicate IsIssueKeyValid(issueNumber: Value) {
    HasType(issueNumber, Int)
  }

  /** `isIssueAttributesValid`: accepts exactly the records that conform
      to the issue schema. */
  function IsIssueAttributesValid(issue: Dict): (b: bool)
    ensures b <==> Conforms(issue, IssueSchema)
  {
    var b :=
      && Check(issue, "reviewers", ListOfStr)
      && Check(issue, "changed_files", ListOfStr)
      && Check(issue, "parent_issue", Int)
      && Check(issue, "child_issues", ListOfInt)
      && Check(issue, "documentation_defects", ListOfInt)
      && Check(issue, "logic_defects", ListOfInt);
    assert b <==> Conforms(issue, IssueSchema) by {
      if b {
        forall k | k in IssueSchema && k in issue
          ensures HasType(issue[k], IssueSchema[k])
        {
          assert Check(issue, k, IssueSchema[k]);
        }
      }
      if Conforms(issue, IssueSchema) {
        assert Check(issue, "reviewers", IssueSchema["reviewers"]);
        assert Check(issue, "changed_files", IssueSchema["changed_files"]);
        assert Check(issue, "parent_issue", IssueSchema["parent_issue"]);
        assert Check(issue, "child_issues", IssueSchema["child_issues"]);
        assert Check(issue, "documentation_defects", IssueSchema["documentation_defects"]);
        assert Check(issue, "logic_defects", IssueSchema["logic_defects"]);
      }
    }
    b
  }

  /** `isReviewerKeyValid`: the GitHub user name is a str and the issue
      number an int. */
  predicate IsReviewerKeyValid(githubUsername: Value, issueNumber: Value) {
    HasType(githubUsername, Str) && HasType(issueNumber, Int)
  }

  /** `isReviewerAttributesValid`: accepts exactly the records that
      conform to the reviewer schema. */
  function IsReviewerAttributesValid(reviewer: Dict): (b: bool)
    ensures b <==> Conforms(reviewer, ReviewerSchema)
  {
    var b :=
      && Check(reviewer, "role", Str)
      && Check(reviewer, "role_description", Str);
    assert b <==> Conforms(reviewer, ReviewerSchema) by {
      if b {
        forall k | k in ReviewerSchema && k in reviewer
          ensures HasType(reviewer[k], ReviewerSchema[k])
        {
          assert Check(reviewer, k, ReviewerSchema[k]);
        }
      }
      if Conforms(reviewer, ReviewerSchema) {
        assert Check(reviewer, "role", ReviewerSchema["role"]);
        assert Check(reviewer, "role_description", ReviewerSchema["role_description"]);
      }
    }
    b
  }

  // ---------------------------------------------------------------------
  // The same checks read as schemas

  const DefectSchema: map<string, FieldType> := map[
    "file_name" := Str, "description" := Str,
    "line_numbers" := ListOfInt, "code_segments" := ListOfStr]

  const IssueSchema: map<string, FieldType> := map[
    "reviewers" := ListOfStr, "changed_files" := ListOfStr, "parent_issue" := Int,
    "child_issues" := ListOfInt, "documentation_defects" := ListOfInt, "logic_defects" := ListOfInt]

  const ReviewerSchema: map<string, FieldType> := map["role" := Str, "role_description" := Str]

  /** Every present key the schema names has the schema's type. */
  predicate Conforms(record: Dict, schema: map<string, FieldType>) {
    forall k :: k in schema && k in record ==> HasType(record[k], schema[k])
  }

  /** Conformance ignores keys outside the schema: adding or changing such a
      key, or removing any key, never turns a conforming record into a
      non-conforming one, and the empty record conforms. */
  lemma ConformsFrame(record: Dict, schema: map<string, FieldType>, key: string, v: Value, gone: set<string>)
    ensures key !in schema ==> (Conforms(record[key := v], schema) <==> Conforms(record, schema))
    ensures Conforms(record, schema) ==> Conforms(record - gone, schema)
    ensures Conforms(map[], schema)
  {
    if key !in schema {
      if Conforms(record, schema) {
        forall k | k in schema && k in record[key := v]
          ensures HasType(record[key := v][k], schema[k])
        {
          assert k != key && k in record;
        }
      }
      if Conforms(record[key := v], schema) {
        forall k | k in schema && k in record
          ensures HasType(record[k], schema[k])
        {
          assert k != key && record[key := v][k] == record[k];
        }
      }
    }
  }

  /** Hence, for the three attribute validators: the empty record is valid,
      dropping keys keeps a record valid, and keys outside the checked set
      never decide the answer. */
  lemma ValidatorsIgnoreUncheckedKeys(record: Dict, key: string, v: Value, gone: set<string>)
    ensures IsDefectAttributesValid(map[]) && IsIssueAttributesValid(map[]) && IsReviewerAttributesValid(map[])
    ensures key !in DefectSchema ==> (IsDefectAttributesValid(record[key := v]) <==> IsDefectAttributesValid(record))
    ensures key !in IssueSchema ==> (IsIssueAttributesValid(record[key := v]) <==> IsIssueAttributesValid(record))
    ensures key !in ReviewerSchema ==> (IsReviewerAttributesValid(record[key := v]) <==> IsReviewerAttributesValid(record))
    ensures IsDefectAttributesValid(record) ==> IsDefectAttributesValid(record - gone)
    ensures IsIssueAttributesValid(record) ==> IsIssueAttributesValid(record - gone)
    ensures IsReviewerAttributesValid(record) ==> IsReviewerAttributesValid(record - gone)
  {
    ConformsFrame(record, DefectSchema, key, v, gone);
    ConformsFrame(record, IssueSchema, key, v, gone);
    ConformsFrame(record, ReviewerSchema, key, v, gone);
  }

  /** The key validators are plain type tests. */
  lemma KeyValidatorsAreTypeTests(number: Value, name: Value)
    ensures IsDefectKeyValid(number) <==> number.VInt?
    ensures IsIssueKeyValid(number) <==> number.VInt?
    ensures IsReviewerKeyValid(name, number) <==> name.VStr? && number.VInt?
  {
  }

  /** The element loop judges each item on its own: a list has a list type
      exactly when both of its parts do, so one bad item anywhere rejects
      the whole list. */
  lemma ListCheckSplits(a: seq<Value>, b: seq<Value>, t: FieldType)
    requires t == ListOfStr || t == ListOfInt
    ensures HasType(VList(a + b), t) <==> HasType(VList(a), t) && HasType(VList(b), t)
  {
    var ab := a + b;
    assert forall i :: 0 <= i < |a| ==> ab[i] == a[i];
    assert forall i :: 0 <= i < |b| ==> ab[|a| + i] == b[i];
    if HasType(VList(a), t) && HasType(VList(b), t) {
      forall i | 0 <= i < |ab|
        ensures if t == ListOfStr then ab[i].VStr? else ab[i].VInt?
      {
        if i >= |a| {
          assert ab[i] == b[i - |a|];
        }
      }
    }
  }
}
