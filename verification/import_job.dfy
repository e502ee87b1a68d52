/**
 * Running a batch the form planned: the batch API calls each queued
 * operation in turn with one shared context, then the finish callback.
 * This is where the pieces meet: the plan counts the header as a line, and
 * the line callback's "first line is the header" rule relies on exactly that.
 */
module ImportJob {

  import opened Wrappers
  import opened PhpStrings
  import opened Codec
  import opened IdentityStore
  import B = CsvImportBatch
  import F = CsvImportForm

  /**
   * One queued operation, dispatched to its callback. A file-name operation
   * yields no line outcome; a line operation yields the outcome of that line.
   */
  method Execute(op: F.Operation, ctx: B.JobContext, store: Store, site: B.Site, draw: int)
    returns (outcome: Option<B.LineOutcome>)
    requires store.Valid()
    requires 2 <= draw <= 6
    modifies ctx, store
    ensures store.Valid()
    ensures op.RememberFilename? ==>
      && outcome.None?
      && ctx.uploadedFilename == op.filename
      && ctx.rowsImported == old(ctx.rowsImported) && ctx.failedRows == old(ctx.failedRows)
      && ctx.group == old(ctx.group)
      && unchanged(store)
    ensures op.ImportLine? ==>
      && outcome.Some?
      && ctx.rowsImported == old(ctx.rowsImported) + 1
      && ctx.group == op.group && ctx.uploadedFilename == old(ctx.uploadedFilename)
      && ctx.failedRows == old(ctx.failedRows) +
           (if old(ctx.rowsImported) > 0 && B.Rejected(site, DecodeCells(op.line)) then [DecodeCells(op.line)] else [])
      && (outcome.value.Header? <==> old(ctx.rowsImported) == 0)
      && (outcome.value.Header? || outcome.value.NameCollision? ==> store.State() == old(store.State()))
      && (outcome.value.Updated? <==>
            old(ctx.rowsImported) > 0 && B.EmailOf(DecodeCells(op.line)) in old(store.accounts))
      && old(store.accounts).Keys <= store.accounts.Keys
      && ((outcome.value.Created? || outcome.value.Updated?) ==>
            && B.EmailOf(DecodeCells(op.line)) in store.accounts
            && store.members == old(store.members) + B.MembershipFor(op.group, B.EmailOf(DecodeCells(op.line))))
      && old(store.members) <= store.members
    ensures op.ImportLine? && (outcome.value.Created? || outcome.value.NameCollision?) ==>
      && outcome.value.name ==
           B.UserNameFromEmail(B.EmailOf(DecodeCells(op.line)), old(store.names).Keys + {B.AnonymousName}, draw)
      && (outcome.value.Created? <==> outcome.value.name !in old(store.names))
    ensures op.ImportLine? && outcome.value.Created? ==>
      B.CreateEffect(old(store.State()), store.State(), B.Normalise(DecodeCells(op.line)), outcome.value.name,
                     op.group, site, store.attachesProfile)
    ensures op.ImportLine? && outcome.value.Updated? ==>
      B.UpdateEffect(old(store.State()), store.State(), B.Normalise(DecodeCells(op.line)), op.group, site)
  {
    match op
    case RememberFilename(filename) =>
      B.RememberFilename(filename, ctx);
      outcome := None;
    case ImportLine(line, group) =>
      var o := B.ImportLine(line, group, ctx, store, site, draw);
      outcome := Some(o);
  }

  /** The rows after the header: the ones the line callback treats as data. */
  function DataRows(lines: seq<seq<string>>): (rows: seq<seq<string>>)
    ensures |rows| == if lines == [] then 0 else |lines| - 1
  {
    if lines == [] then [] else lines[1..]
  }

  /**
   * The batch runner on a fresh context, for a plan built from `filename`,
   * `lines` and `group` (`draws[k]` is the suffix `random_int` picks if
   * operation k needs one). Afterwards every line has been counted, the
   * header alone was skipped, the failed rows are exactly the rejected data
   * rows in file order, and each imported row's account exists and, for a
   * truthy group, belongs to the group.
   */
  method Run(batch: F.Batch, ctx: B.JobContext, store: Store, site: B.Site, draws: seq<int>,
             ghost filename: string, ghost lines: seq<seq<string>>, ghost group: string)
    returns (outcomes: seq<B.LineOutcome>)
    requires ctx.rowsImported == 0 && ctx.failedRows == []
    requires F.IsPlanFor(batch.operations, filename, lines, group)
    requires store.Valid()
    requires |draws| == |batch.operations|
    requires forall k :: 0 <= k < |draws| ==> 2 <= draws[k] <= 6
    modifies ctx, store
    ensures store.Valid()
    ensures ctx.rowsImported == |lines|
    ensures ctx.uploadedFilename == filename
    ensures ctx.group == if lines == [] then old(ctx.group) else group
    ensures ctx.failedRows == B.FailedRows(site, DataRows(lines))
    ensures |outcomes| == |lines|
    ensures forall k :: 0 <= k < |outcomes| ==> (outcomes[k].Header? <==> k == 0)
    ensures forall k :: 0 <= k < |outcomes| && (outcomes[k].Created? || outcomes[k].Updated?) ==>
      && B.EmailOf(lines[k]) in store.accounts
      && B.MembershipFor(group, B.EmailOf(lines[k])) <= store.members
  {
    var ops := batch.operations;
    var first := Execute(ops[0], ctx, store, site, draws[0]);
    outcomes := [];
    var i := 1;
    while i < |ops|
      invariant 1 <= i <= |ops|
      invariant store.Valid()
      invariant ctx.uploadedFilename == filename
      invariant ctx.rowsImported == i - 1 == |outcomes|
      invariant ctx.group == if i == 1 then old(ctx.group) else group
      invariant ctx.failedRows == B.FailedRows(site, DataRows(lines[..i - 1]))
      invariant HeaderFirst(outcomes)
      invariant Imported(outcomes, lines, group, store.accounts, store.members)
    {
      ghost var line := lines[i - 1];
      assert ops[i] == F.ImportLine(EncodeCells(line), group);
      FailedRowsStep(site, lines, i - 1);
      ghost var accounts, members := store.accounts, store.members;
      var o := RunLine(ops[i], line, group, ctx, store, site, draws[i]);
      ImportedStep(outcomes, o, lines, group, accounts, members, store.accounts, store.members);
      HeaderFirstStep(outcomes, o);
      outcomes := outcomes + [o];
      i := i + 1;
    }
    assert lines[..i - 1] == lines;
  }

  /**
   * The whole batch: the planned operations on a fresh context, then the
   * finish callback on the context's results. The finish callback stops on
   * an error exactly when some data row was rejected and the directory could
   * not be prepared. Otherwise the failure CSV receives exactly the rejected
   * data rows, in file order, and the redirect goes to the form's group when
   * it is truthy and the file had a line.
   */
  method RunBatch(batch: F.Batch, ctx: B.JobContext, store: Store, site: B.Site, draws: seq<int>,
                  success: bool, directoryReady: bool, fileOpened: bool,
                  ghost filename: string, ghost lines: seq<seq<string>>, ghost group: string)
    returns (outcomes: seq<B.LineOutcome>, report: B.FinishReport)
    requires ctx.rowsImported == 0 && ctx.failedRows == [] && ctx.uploadedFilename == "" && ctx.group == ""
    requires F.IsPlanFor(batch.operations, filename, lines, group)
    requires store.Valid()
    requires |draws| == |batch.operations|
    requires forall k :: 0 <= k < |draws| ==> 2 <= draws[k] <= 6
    modifies ctx, store
    ensures |outcomes| == |lines|
    ensures var failed := B.FailedRows(site, DataRows(lines));
      && (report.aborted <==> failed != [] && !directoryReady)
      && (report.csvPath.Some? <==> failed != [] && directoryReady)
      && report.written == (if failed != [] && directoryReady && fileOpened then failed else [])
    ensures report.csvPath.Some? ==>
      report.csvPath.value == B.FailedRowsPath(B.FailedRowsDirectory, B.FailedRowsPrefix, filename)
    ensures report.redirect.Some? <==> !report.aborted && lines != [] && Truthy(group)
  {
    outcomes := Run(batch, ctx, store, site, draws, filename, lines, group);
    report := B.ImportFinished(success, ctx.Results(), directoryReady, fileOpened);
  }

  /** One turn of Run's loop: the line operation for `line`, with the effects the loop relies on. */
  method RunLine(op: F.Operation, ghost line: seq<string>, ghost group: string,
                 ctx: B.JobContext, store: Store, site: B.Site, draw: int)
    returns (outcome: B.LineOutcome)
    requires op == F.ImportLine(EncodeCells(line), group)
    requires store.Valid()
    requires 2 <= draw <= 6
    modifies ctx, store
    ensures store.Valid()
    ensures ctx.rowsImported == old(ctx.rowsImported) + 1
    ensures ctx.group == group && ctx.uploadedFilename == old(ctx.uploadedFilename)
    ensures ctx.failedRows == old(ctx.failedRows) +
      (if old(ctx.rowsImported) > 0 && B.Rejected(site, line) then [line] else [])
    ensures outcome.Header? <==> old(ctx.rowsImported) == 0
    ensures old(store.accounts).Keys <= store.accounts.Keys && old(store.members) <= store.members
    ensures outcome.Created? || outcome.Updated? ==>
      B.EmailOf(line) in store.accounts && B.MembershipFor(group, B.EmailOf(line)) <= store.members
  {
    DecodeEncodeCells(line);
    var o := Execute(op, ctx, store, site, draw);
    outcome := o.value;
  }

  /** Only the first line's outcome is the header's. */
  ghost predicate HeaderFirst(outcomes: seq<B.LineOutcome>)
  {
    forall k :: 0 <= k < |outcomes| ==> (outcomes[k].Header? <==> k == 0)
  }

  lemma HeaderFirstStep(outcomes: seq<B.LineOutcome>, o: B.LineOutcome)
    requires HeaderFirst(outcomes)
    requires o.Header? <==> outcomes == []
    ensures HeaderFirst(outcomes + [o])
  {
  }

  /** Each of the first |outcomes| lines that was created or updated has its account and, for a truthy group, its membership. */
  ghost predicate Imported(outcomes: seq<B.LineOutcome>, lines: seq<seq<string>>, group: string,
                           accounts: map<string, Account>, members: set<(string, string)>)
  {
    forall k :: 0 <= k < |outcomes| && k < |lines| && (outcomes[k].Created? || outcomes[k].Updated?) ==>
      && B.EmailOf(lines[k]) in accounts
      && B.MembershipFor(group, B.EmailOf(lines[k])) <= members
  }

  /** Accounts and memberships only grow, so what earlier lines achieved survives the next line. */
  lemma ImportedStep(outcomes: seq<B.LineOutcome>, o: B.LineOutcome, lines: seq<seq<string>>, group: string,
                     a0: map<string, Account>, m0: set<(string, string)>,
                     a1: map<string, Account>, m1: set<(string, string)>)
    requires Imported(outcomes, lines, group, a0, m0)
    requires |outcomes| < |lines| && a0.Keys <= a1.Keys && m0 <= m1
    requires (o.Created? || o.Updated?) ==>
      B.EmailOf(lines[|outcomes|]) in a1 && B.MembershipFor(group, B.EmailOf(lines[|outcomes|])) <= m1
    ensures Imported(outcomes + [o], lines, group, a1, m1)
  {
  }

  /** Taking one more line into account adds that line to the failed rows exactly when it is a rejected data row. */
  lemma FailedRowsStep(site: B.Site, lines: seq<seq<string>>, n: nat)
    requires n < |lines|
    ensures B.FailedRows(site, DataRows(lines[..n + 1])) ==
      B.FailedRows(site, DataRows(lines[..n])) +
      (if n > 0 && B.Rejected(site, lines[n]) then [lines[n]] else [])
  {
    if n > 0 {
      var rows := DataRows(lines[..n + 1]);
      assert rows[..|rows| - 1] == DataRows(lines[..n]);
      assert rows[|rows| - 1] == lines[n];
    }
  }

}
