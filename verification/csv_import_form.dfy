/**
 * The upload form of the importer: the delimiter choice, the check of the
 * uploaded file's first cell, the batch plan built on submission, and the
 * access rule for the form's route. Reading the CSV file is not modelled: a
 * readable upload is given as the rows `fgetcsv` yields for each delimiter.
 */
module CsvImportForm {

  import opened Wrappers
  import opened PhpStrings
  import opened Codec

  // ---------------------------------------------------------------------------
  // Delimiter

  /** The options of the delimiter select in `buildForm`. */
  const DelimiterOptions: map<int, char> := map[1 := ';', 2 := ',']

  /** The mapping used by both `validateForm` and `submitForm`: option 1 is ';', any other value is ','. */
  function DelimiterFor(option: int): (d: char)
    ensures d == ';' <==> option == 1
    ensures d == ';' || d == ','
  {
    if option == 1 then ';' else ','
  }

  /** For the two options the select offers, the mapping gives the character the select displays. */
  lemma DelimiterAgreesWithOptions(option: int)
    requires option in DelimiterOptions
    ensures DelimiterFor(option) == DelimiterOptions[option]
  {
  }

  // ---------------------------------------------------------------------------
  // Validation of the upload

  /** The cell values accepted as the first cell of an upload, duplicate entry and spelling as in the form. */
  const CheckedAllowedFields: seq<string> :=
    ["email", "status", "pass", "field_profile_first_name", "field_profile_first_name",
     "field_profile_organisation", "langcode", "timezone"]

  /** The column names the form's help text lists as required, in order. */
  const RequiredFields: seq<string> :=
    ["email", "status", "pass", "field_profile_first_name", "field_profile_last_name",
     "field_profile_organization", "langcode", "timezone"]

  /** The first cell of a parsed line; a line without cells reads as "" (PHP's null). */
  function FirstCell(line: seq<string>): string
  {
    if line == [] then "" else line[0]
  }

  /** `in_array($line[0], $checkedAllowedFields)`: only the first cell is looked at. */
  predicate HeaderAccepted(line: seq<string>)
  {
    FirstCell(line) in CheckedAllowedFields
  }

  /** Lines that agree on their first cell are judged alike, whatever their other cells hold. */
  lemma HeaderOnlyFirstCell(a: seq<string>, b: seq<string>)
    requires a != [] && b != [] && a[0] == b[0]
    ensures HeaderAccepted(a) <==> HeaderAccepted(b)
  {
  }

  /**
   * Against the help text: a first cell is accepted exactly when it is a
   * required column other than the last name and the American spelling of
   * the organisation, or the British spelling the check lists instead.
   */
  lemma HeaderListAgainstHelp(cell: string)
    ensures HeaderAccepted([cell]) <==>
      (cell in RequiredFields && cell != RequiredFields[4] && cell != RequiredFields[5])
      || cell == CheckedAllowedFields[5]
  {
    assert FirstCell([cell]) == cell;
  }

  /** The uploaded file as `fopen` sees it: unreadable, or readable with the rows `fgetcsv` yields per delimiter. */
  datatype CsvFile = Unreadable | Readable(rows: char -> seq<seq<string>>)

  /** The values of the submitted form; an unset `csvupload` reads as "". */
  datatype FormValues = FormValues(delimiter: int, csvupload: string, group: string)

  /** The errors `validateForm` can set on the file element. */
  datatype FormError = FormatMismatch | UnreadableUpload(path: string)

  /**
   * `validateForm`. Without a (truthy) upload path nothing is checked; an
   * unreadable upload is an error; an empty file passes; otherwise the first
   * line decides.
   */
  function ValidateForm(values: FormValues, file: CsvFile): (err: Option<FormError>)
    ensures err.Some? <==>
      && Truthy(values.csvupload)
      && (file.Unreadable? ||
          (var rows := file.rows(DelimiterFor(values.delimiter)); rows != [] && !HeaderAccepted(rows[0])))
    ensures err == Some(UnreadableUpload(values.csvupload)) <==> Truthy(values.csvupload) && file.Unreadable?
    ensures err == Some(FormatMismatch) <==>
      && Truthy(values.csvupload) && file.Readable?
      && (var rows := file.rows(DelimiterFor(values.delimiter)); rows != [] && !HeaderAccepted(rows[0]))
  {
    if Truthy(values.csvupload) then
      match file
      case Unreadable => Some(UnreadableUpload(values.csvupload))
      case Readable(rows) =>
        var lines := rows(DelimiterFor(values.delimiter));
        if lines != [] && !HeaderAccepted(lines[0]) then Some(FormatMismatch) else None
    else
      None
  }

  // ---------------------------------------------------------------------------
  // The batch plan

  /** One queued batch operation: the callback and its arguments. */
  datatype Operation =
    | RememberFilename(filename: string)
    | ImportLine(line: seq<Encoded>, group: string)

  /** The callback the batch calls when it is done; the form always names the same one. */
  datatype FinishedCallback = ImportFinished

  datatype Batch = Batch(operations: seq<Operation>, finished: FinishedCallback)

  /** `ops` remembers `filename` first, then imports each of `lines`, in order, with `group`. */
  predicate IsPlanFor(ops: seq<Operation>, filename: string, lines: seq<seq<string>>, group: string)
  {
    && |ops| == |lines| + 1
    && ops[0] == RememberFilename(filename)
    && forall k :: 1 <= k < |ops| ==> ops[k] == ImportLine(EncodeCells(lines[k - 1]), group)
  }

  /** A plan determines the file name, the rows and the group it was built from. */
  lemma PlanDeterminesInput(ops: seq<Operation>, f1: string, l1: seq<seq<string>>, g1: string,
                            f2: string, l2: seq<seq<string>>, g2: string)
    requires IsPlanFor(ops, f1, l1, g1) && IsPlanFor(ops, f2, l2, g2)
    ensures f1 == f2 && l1 == l2 && (l1 != [] ==> g1 == g2)
  {
    forall k | 0 <= k < |l1|
      ensures l1[k] == l2[k]
    {
      assert ops[k + 1] == ImportLine(EncodeCells(l1[k]), g1);
      EncodeCellsInjective(l1[k], l2[k]);
    }
    if l1 != [] {
      assert ops[1].group == g1;
    }
  }

  /**
   * `submitForm`: the plan for a readable upload is the file-name operation
   * followed by one line operation per parsed row, the header row included.
   */
  method SubmitForm(values: FormValues, file: CsvFile) returns (batch: Batch)
    ensures batch.finished == ImportFinished
    ensures !Truthy(values.csvupload) || file.Unreadable? ==> batch.operations == []
    ensures Truthy(values.csvupload) && file.Readable? ==>
      IsPlanFor(batch.operations, values.csvupload, file.rows(DelimiterFor(values.delimiter)), values.group)
  {
    var group := values.group;
    var delimiter := DelimiterFor(values.delimiter);
    batch := Batch([], ImportFinished);
    if Truthy(values.csvupload) && file.Readable? {
      var lines := file.rows(delimiter);
      var ops := [RememberFilename(values.csvupload)];
      var i := 0;
      while i < |lines|
        invariant 0 <= i <= |lines|
        invariant |ops| == i + 1 && ops[0] == RememberFilename(values.csvupload)
        invariant forall k :: 1 <= k < |ops| ==> ops[k] == ImportLine(EncodeCells(lines[k - 1]), group)
      {
        ops := ops + [ImportLine(EncodeCells(lines[i]), group)];
        i := i + 1;
      }
      batch := batch.(operations := ops);
    }
  }

  // ---------------------------------------------------------------------------
  // Access

  /** What `$group->getMember($account)` yields: no membership, or one with its group permissions. */
  datatype Membership = NotMember | Member(permissions: set<string>)

  datatype AccessResult = Allowed | Forbidden

  const EditGroup := "edit group"
  const Administrator := "administrator"

  /**
   * `access`: `group` is None when the route has no group, else the account's
   * membership in it; `roles` are the account's site roles.
   */
  function Access(roles: set<string>, group: Option<Membership>): (r: AccessResult)
    ensures r == Allowed <==>
      && group.Some?
      && ((group.value.Member? && EditGroup in group.value.permissions) ||
          (group.value.NotMember? && Administrator in roles))
  {
    if group.Some? then
      match group.value
      case Member(permissions) => if EditGroup in permissions then Allowed else Forbidden
      case NotMember => if Administrator in roles then Allowed else Forbidden
    else
      Forbidden
  }

  /** For a member, the administrator role neither grants nor withholds access: only the group permission counts. */
  lemma AdministratorIrrelevantForMembers(roles: set<string>, permissions: set<string>)
    ensures Access(roles + {Administrator}, Some(Member(permissions)))
         == Access(roles - {Administrator}, Some(Member(permissions)))
  {
  }

  /** Without a group no account is let in, whatever its roles. */
  lemma NoGroupForbidden(roles: set<string>)
    ensures Access(roles, None) == Forbidden
  {
  }

}
