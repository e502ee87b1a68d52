/**
 * The batch callbacks of the CSV import: remembering the uploaded file name,
 * importing one line (count it, skip the header, validate the e-mail, then
 * create or update the account, its profile and its group membership), and
 * the decisions taken when the batch finishes.
 */
module CsvImportBatch {

  import opened Wrappers
  import opened PhpStrings
  import opened Codec
  import opened IdentityStore

  /** The site services the batch consults, passed in instead of looked up. */
  datatype Site = Site(
    validEmail: string -> bool,   // the email.validator service
    languages: set<string>,       // the keys of the language manager's languages
    timezones: set<string>,       // the allowed timezone identifiers
    currentLangcode: string,      // the id of the current language
    defaultTimezone: string)      // the site's default timezone

  /** The `results` part of the batch context, as the finish callback receives it. */
  datatype JobResults = JobResults(
    rowsImported: nat,
    failedRows: seq<seq<string>>,
    uploadedFilename: string,
    group: string)

  /**
   * The batch context every callback updates in place. A key the source has
   * not set yet reads as 0 or "", which is how PHP treats the missing entry.
   */
  class JobContext {
    var rowsImported: nat
    var failedRows: seq<seq<string>>
    var uploadedFilename: string
    var group: string

    constructor ()
      ensures rowsImported == 0 && failedRows == [] && uploadedFilename == "" && group == ""
    {
      rowsImported, failedRows, uploadedFilename, group := 0, [], "", "";
    }

    function Results(): JobResults
      reads this
    {
      JobResults(rowsImported, failedRows, uploadedFilename, group)
    }
  }

  // ---------------------------------------------------------------------------
  // Field validators

  /** `validateEmail`: the answer of the site's e-mail validator. */
  function ValidateEmail(site: Site, email: string): (ok: bool)
    ensures ok <==> site.validEmail(email)
  {
    site.validEmail(email)
  }

  /** `validateStatus`: a strict comparison with "1" and "0"; nothing is coerced. */
  function ValidateStatus(status: string): (ok: bool)
    ensures ok <==> StatusFlag(status)
    ensures ok ==> |status| == 1
  {
    status == "1" || status == "0"
  }

  /** A valid status is exactly one character, '0' or '1'; padded or numeric look-alikes are refused. */
  lemma ValidateStatusStrict(status: string)
    ensures ValidateStatus(status) <==> |status| == 1 && (status[0] == '0' || status[0] == '1')
    ensures ValidateStatus(status) <==> StatusFlag(status)
    ensures !ValidateStatus(" 1") && !ValidateStatus("01") && !ValidateStatus("1.0") && !ValidateStatus("")
  {
    if |status| == 1 {
      assert status == [status[0]];
    }
  }

  /** `cleanPassword`: every space removed, every other character kept, and in order (see StripSpacesAppend). */
  function CleanPassword(password: string): (r: string)
    ensures ' ' !in r
    ensures forall c :: c != ' ' ==> multiset(r)[c] == multiset(password)[c]
    ensures ' ' !in password ==> r == password
  {
    if ' ' !in password then StripSpacesKeeps(password); StripSpaces(password)
    else StripSpaces(password)
  }

  /** `isValidLangcode`: the code is one of the site's languages. */
  function IsValidLangcode(site: Site, langcode: string): (ok: bool)
    ensures ok <==> langcode in site.languages
  {
    langcode in site.languages
  }

  /** `isValidTimezone`: the identifier is one of the allowed timezones. */
  function IsValidTimezone(site: Site, timezone: string): (ok: bool)
    ensures ok <==> timezone in site.timezones
  {
    timezone in site.timezones
  }

  /**
   * `getUserNameFromEmail`: the text before the first '@' when no account uses
   * that name, otherwise that text, '_' and the one random digit `draw`
   * (a single attempt, so the result may still be taken).
   */
  function UserNameFromEmail(email: string, taken: set<string>, draw: int): (name: string)
    requires 2 <= draw <= 6
    ensures var local := ExplodeHead(email, '@');
      && local <= name
      && (name == local <==> local !in taken)
      && (name != local ==> |name| == |local| + 2 && name[|local|] == '_' && '2' <= name[|local| + 1] <= '6')
    ensures '@' !in name
    ensures ' ' !in email ==> ' ' !in name
  {
    var local := ExplodeHead(email, '@');
    assert ' ' in local ==> ' ' in email by {
      if ' ' in local {
        var k :| 0 <= k < |local| && local[k] == ' ';
        assert email[k] == ' ';
      }
    }
    if local in taken then
      var name := local + "_" + [DecimalDigit(draw)];
      assert name[|local|] == '_' && name[|local| + 1] == DecimalDigit(draw);
      name
    else local
  }

  /**
   * One suffix draw is all there is: the derived name is still taken exactly
   * when both the local part and its one suffixed form are taken.
   */
  lemma UserNameSingleAttempt(email: string, taken: set<string>, draw: int)
    requires 2 <= draw <= 6
    ensures var local := ExplodeHead(email, '@');
      UserNameFromEmail(email, taken, draw) in taken <==>
        local in taken && local + "_" + [DecimalDigit(draw)] in taken
  {
  }

  /** For instance, with "ann" and "ann_2" taken, drawing 2 for ann@example.org gives a taken name. */
  lemma UserNameStillTakenExample()
    ensures UserNameFromEmail("ann@example.org", {"ann", "ann_2"}, 2) in {"ann", "ann_2"}
  {
    assert ExplodeHead("ann@example.org", '@') == "ann";
    assert DecimalDigit(2) == '2';
    assert "ann" + "_" + ['2'] == "ann_2";
  }

  // ---------------------------------------------------------------------------
  // One decoded row

  /** The eight columns after the normalisation `csvimportImportLine` applies. */
  datatype ImportRecord = ImportRecord(
    email: string,
    status: string,
    pass: string,
    firstName: string,
    lastName: string,
    organization: string,
    langcode: string,
    timezone: string)

  /** Cell `i` of a row; a cell the row lacks reads as "" (PHP's undefined offset gives null). */
  function Cell(cells: seq<string>, i: nat): string
  {
    if i < |cells| then cells[i] else ""
  }

  /** The e-mail of a row: its first cell with every space removed. */
  function EmailOf(cells: seq<string>): string
  {
    StripSpaces(Cell(cells, 0))
  }

  /**
   * Spaces are removed from e-mail, langcode and timezone; the other cells are
   * trimmed. A row without a cell gives "" for it.
   */
  function Normalise(cells: seq<string>): (rec: ImportRecord)
    ensures rec.email == EmailOf(cells)
    ensures ' ' !in rec.email && ' ' !in rec.langcode && ' ' !in rec.timezone
    ensures Trimmed(rec.status) && Trimmed(rec.pass)
    ensures Trimmed(rec.firstName) && Trimmed(rec.lastName) && Trimmed(rec.organization)
    ensures |cells| <= 1 ==> rec.status == ""
    ensures |cells| <= 7 ==> rec.timezone == ""
  {
    ImportRecord(
      EmailOf(cells),
      Trim(Cell(cells, 1)),
      Trim(Cell(cells, 2)),
      Trim(Cell(cells, 3)),
      Trim(Cell(cells, 4)),
      Trim(Cell(cells, 5)),
      StripSpaces(Cell(cells, 6)),
      StripSpaces(Cell(cells, 7)))
  }

  /**
   * Which cell each field comes from: cells 1 to 5 are trimmed into status,
   * password, first name, last name and organisation; cells 0, 6 and 7 lose
   * their spaces and keep every other character into e-mail, langcode and
   * timezone. A cell the row lacks gives "" for its field.
   */
  lemma NormaliseColumns(cells: seq<string>)
    ensures var rec := Normalise(cells);
      && StrippedOf(rec.status, Cell(cells, 1)) && StrippedOf(rec.pass, Cell(cells, 2))
      && StrippedOf(rec.firstName, Cell(cells, 3)) && StrippedOf(rec.lastName, Cell(cells, 4))
      && StrippedOf(rec.organization, Cell(cells, 5))
    ensures var rec := Normalise(cells);
      forall c :: c != ' ' ==>
        && multiset(rec.email)[c] == multiset(Cell(cells, 0))[c]
        && multiset(rec.langcode)[c] == multiset(Cell(cells, 6))[c]
        && multiset(rec.timezone)[c] == multiset(Cell(cells, 7))[c]
    ensures var rec := Normalise(cells);
      && (|cells| <= 0 ==> rec.email == "")
      && (|cells| <= 1 ==> rec.status == "")
      && (|cells| <= 2 ==> rec.pass == "")
      && (|cells| <= 3 ==> rec.firstName == "")
      && (|cells| <= 4 ==> rec.lastName == "")
      && (|cells| <= 5 ==> rec.organization == "")
      && (|cells| <= 6 ==> rec.langcode == "")
      && (|cells| <= 7 ==> rec.timezone == "")
  {
  }

  /** Normalising twice changes nothing: no spaces are left where they were removed, no trim characters at the ends of the rest. */
  lemma NormaliseStable(cells: seq<string>)
    ensures var rec := Normalise(cells);
      && ' ' !in rec.email && ' ' !in rec.langcode && ' ' !in rec.timezone
      && Normalise([rec.email, rec.status, rec.pass, rec.firstName, rec.lastName,
                    rec.organization, rec.langcode, rec.timezone]) == rec
  {
    var rec := Normalise(cells);
    StripSpacesKeeps(rec.email);
    StripSpacesKeeps(rec.langcode);
    StripSpacesKeeps(rec.timezone);
    TrimIdempotent(Cell(cells, 1));
    TrimIdempotent(Cell(cells, 2));
    TrimIdempotent(Cell(cells, 3));
    TrimIdempotent(Cell(cells, 4));
    TrimIdempotent(Cell(cells, 5));
  }

  /** A data row goes to `failed_rows` when its e-mail is truthy and the validator refuses it. */
  predicate Rejected(site: Site, cells: seq<string>)
  {
    var email := EmailOf(cells);
    Truthy(email) && !ValidateEmail(site, email)
  }

  /** The rows of `rows` that are rejected, in their order. */
  function FailedRows(site: Site, rows: seq<seq<string>>): (failed: seq<seq<string>>)
    ensures |failed| <= |rows|
  {
    if rows == [] then []
    else
      var last := rows[|rows| - 1];
      FailedRows(site, rows[..|rows| - 1]) + (if Rejected(site, last) then [last] else [])
  }

  /** Failed rows of a concatenation: those of the first part, then those of the second. */
  lemma {:induction false} FailedRowsAppend(site: Site, a: seq<seq<string>>, b: seq<seq<string>>)
    ensures FailedRows(site, a + b) == FailedRows(site, a) + FailedRows(site, b)
  {
    if b == [] {
      assert a + b == a;
    } else {
      var b' := b[..|b| - 1];
      assert (a + b)[..|a + b| - 1] == a + b';
      assert (a + b)[|a + b| - 1] == b[|b| - 1];
      FailedRowsAppend(site, a, b');
    }
  }

  /** A row is among the failed rows exactly when it is one of the rows and is rejected. */
  lemma {:induction false} FailedRowsExactly(site: Site, rows: seq<seq<string>>, row: seq<string>)
    ensures row in FailedRows(site, rows) <==> row in rows && Rejected(site, row)
  {
    if rows != [] {
      var init := rows[..|rows| - 1];
      assert rows == init + [rows[|rows| - 1]];
      FailedRowsExactly(site, init, row);
    }
  }

  // ---------------------------------------------------------------------------
  // What one line does to the store

  /** The account the create path saves for `rec` under user name `name`. */
  ghost predicate CreatedAccount(a: Account, rec: ImportRecord, name: string, site: Site)
  {
    && a.name == name
    && a.mail == rec.email && a.init == rec.email
    && a.status == "1"
    && a.pass == CleanPassword(rec.pass)
    && a.timezone == (if IsValidTimezone(site, rec.timezone) then rec.timezone else site.defaultTimezone)
    && a.langcode == (if IsValidLangcode(site, rec.langcode) then rec.langcode else site.currentLangcode)
    && a.preferredLangcode == a.langcode
    && a.preferredAdminLangcode == a.langcode
  }

  /** The update path changes status, timezone and language only to values that validate. */
  ghost predicate UpdatedAccount(before: Account, after: Account, rec: ImportRecord, site: Site)
  {
    && after.name == before.name && after.mail == before.mail && after.init == before.init
    && after.pass == before.pass
    && after.status == (if ValidateStatus(rec.status) then rec.status else before.status)
    && after.timezone == (if IsValidTimezone(site, rec.timezone) then rec.timezone else before.timezone)
    && (if IsValidLangcode(site, rec.langcode)
        then after.langcode == after.preferredLangcode == after.preferredAdminLangcode == rec.langcode
        else
          && after.langcode == before.langcode
          && after.preferredLangcode == before.preferredLangcode
          && after.preferredAdminLangcode == before.preferredAdminLangcode)
  }

  /** Each profile field is overwritten only by a truthy incoming value. */
  ghost predicate ProfileMerged(before: Profile, after: Profile, rec: ImportRecord)
  {
    && after.firstName == (if Truthy(rec.firstName) then rec.firstName else before.firstName)
    && after.lastName == (if Truthy(rec.lastName) then rec.lastName else before.lastName)
    && after.organization == (if Truthy(rec.organization) then rec.organization else before.organization)
  }

  /** A new account's timezone and languages are allowed ones whenever the site's defaults are. */
  lemma CreatedAccountSettingsAllowed(a: Account, rec: ImportRecord, name: string, site: Site)
    requires CreatedAccount(a, rec, name, site)
    requires site.defaultTimezone in site.timezones && site.currentLangcode in site.languages
    ensures a.timezone in site.timezones
    ensures a.langcode in site.languages && a.preferredLangcode in site.languages
    ensures a.preferredAdminLangcode in site.languages
  {
  }

  /** An update never moves an account's status, timezone or languages off allowed values. */
  lemma UpdatedAccountSettingsAllowed(before: Account, after: Account, rec: ImportRecord, site: Site)
    requires UpdatedAccount(before, after, rec, site)
    requires StatusFlag(before.status) && before.timezone in site.timezones
    requires before.langcode in site.languages && before.preferredLangcode in site.languages
    requires before.preferredAdminLangcode in site.languages
    ensures StatusFlag(after.status) && after.timezone in site.timezones
    ensures after.langcode in site.languages && after.preferredLangcode in site.languages
    ensures after.preferredAdminLangcode in site.languages
  {
  }

  /** The store after the create path saved the account for `rec` under `name`, its profile and its membership. */
  ghost predicate CreateEffect(before: Snapshot, after: Snapshot, rec: ImportRecord, name: string, group: string,
                               site: Site, attachesProfile: bool)
  {
    && rec.email in after.accounts
    && after.accounts == before.accounts[rec.email := after.accounts[rec.email]]
    && CreatedAccount(after.accounts[rec.email], rec, name, site)
    && after.names == before.names[name := rec.email]
    && after.profiles == (if attachesProfile
                          then before.profiles[rec.email := Profile(rec.firstName, rec.lastName, rec.organization)]
                          else before.profiles)
    && after.members == before.members + MembershipFor(group, rec.email)
  }

  /** The store after the update path: only the account with `rec`'s e-mail, its profile and its membership change. */
  ghost predicate UpdateEffect(before: Snapshot, after: Snapshot, rec: ImportRecord, group: string, site: Site)
  {
    && rec.email in before.accounts && rec.email in after.accounts
    && after.accounts == before.accounts[rec.email := after.accounts[rec.email]]
    && UpdatedAccount(before.accounts[rec.email], after.accounts[rec.email], rec, site)
    && after.names == before.names
    && after.profiles.Keys == before.profiles.Keys
    && (rec.email in before.profiles ==>
          && after.profiles == before.profiles[rec.email := after.profiles[rec.email]]
          && ProfileMerged(before.profiles[rec.email], after.profiles[rec.email], rec))
    && (rec.email !in before.profiles ==> after.profiles == before.profiles)
    && after.members == before.members + MembershipFor(group, rec.email)
  }

  /** The anonymous account has the empty user name, so `user_load_by_name("")` always finds an account. */
  const AnonymousName := ""

  /** The membership a line adds: only when the group id is truthy. */
  function MembershipFor(group: string, mail: string): (added: set<(string, string)>)
    ensures added == {} <==> !Truthy(group)
    ensures forall p :: p in added ==> p == (group, mail)
  {
    if Truthy(group) then {(group, mail)} else {}
  }

  /** Which way a line went. `NameCollision` stands for the storage refusing a taken user name. */
  datatype LineOutcome = Header | Created(name: string) | NameCollision(name: string) | Updated

  // ---------------------------------------------------------------------------
  // The batch callbacks

  /** `csvimportRememberFilename`: sets the uploaded file name and nothing else. */
  method RememberFilename(filename: string, ctx: JobContext)
    modifies ctx
    ensures ctx.uploadedFilename == filename
    ensures ctx.rowsImported == old(ctx.rowsImported) && ctx.failedRows == old(ctx.failedRows)
    ensures ctx.group == old(ctx.group)
  {
    ctx.uploadedFilename := filename;
  }

  /** The `set()` calls of the create path on the new user object, up to `activate()`. */
  method BuildNewUser(rec: ImportRecord, name: string, site: Site) returns (user: Account)
    ensures CreatedAccount(user, rec, name, site)
  {
    // the status computed here is superseded by activate() below
    var status := if ValidateStatus(rec.status) then "1" else "0";
    user := Account(name, rec.email, rec.email, status, CleanPassword(rec.pass), "", "", "", "");
    var timezone := rec.timezone;
    if !IsValidTimezone(site, timezone) {
      timezone := site.defaultTimezone;
    }
    user := user.(timezone := timezone);
    var langcode := rec.langcode;
    if !IsValidLangcode(site, langcode) {
      langcode := site.currentLangcode;
    }
    user := user.(langcode := langcode, preferredLangcode := langcode, preferredAdminLangcode := langcode);
    user := user.(status := "1");
  }

  /** The `set()` calls of the update path on the loaded user object. */
  method ApplyUpdate(before: Account, rec: ImportRecord, site: Site) returns (user: Account)
    ensures UpdatedAccount(before, user, rec, site)
    ensures StatusFlag(before.status) ==> StatusFlag(user.status)
  {
    user := before;
    if ValidateStatus(rec.status) {
      user := user.(status := rec.status);
    }
    if IsValidTimezone(site, rec.timezone) {
      user := user.(timezone := rec.timezone);
    }
    if IsValidLangcode(site, rec.langcode) {
      user := user.(langcode := rec.langcode, preferredLangcode := rec.langcode,
                    preferredAdminLangcode := rec.langcode);
    }
  }

  /** The field writes of the update path on the loaded profile. */
  method MergeProfile(before: Profile, rec: ImportRecord) returns (profile: Profile)
    ensures ProfileMerged(before, profile, rec)
  {
    profile := before;
    if Truthy(rec.firstName) {
      profile := profile.(firstName := rec.firstName);
    }
    if Truthy(rec.lastName) {
      profile := profile.(lastName := rec.lastName);
    }
    if Truthy(rec.organization) {
      profile := profile.(organization := rec.organization);
    }
  }

  /** Both paths end with `if ($group) { $group_storage->addMember($user); }`. */
  method JoinGroup(group: string, mail: string, store: Store)
    requires store.Valid()
    requires mail in store.accounts
    modifies store
    ensures store.Valid()
    ensures store.members == old(store.members) + MembershipFor(group, mail)
    ensures store.accounts == old(store.accounts) && store.names == old(store.names)
    ensures store.profiles == old(store.profiles)
  {
    if Truthy(group) {
      store.AddMember(group, mail);
    }
  }

  /** On the create path, the profile attached to the new account, if any, receives the three name fields as they are. */
  method FillNewProfile(rec: ImportRecord, store: Store)
    requires store.Valid()
    modifies store
    ensures store.Valid()
    ensures store.profiles == if rec.email in old(store.profiles)
      then old(store.profiles)[rec.email := Profile(rec.firstName, rec.lastName, rec.organization)]
      else old(store.profiles)
    ensures store.accounts == old(store.accounts) && store.names == old(store.names)
    ensures store.members == old(store.members)
  {
    if rec.email in store.profiles {
      store.SaveProfile(rec.email, Profile(rec.firstName, rec.lastName, rec.organization));
    }
  }

  /** After the new account is saved: its profile, if the site attached one, then its membership. */
  method CompleteNewAccount(rec: ImportRecord, group: string, store: Store)
    requires store.Valid()
    requires rec.email in store.accounts
    modifies store
    ensures store.Valid()
    ensures store.accounts == old(store.accounts) && store.names == old(store.names)
    ensures store.profiles == if rec.email in old(store.profiles)
      then old(store.profiles)[rec.email := Profile(rec.firstName, rec.lastName, rec.organization)]
      else old(store.profiles)
    ensures store.members == old(store.members) + MembershipFor(group, rec.email)
  {
    FillNewProfile(rec, store);
    JoinGroup(group, rec.email, store);
  }

  /**
   * The saves on the create path: the account (refused when its user name is
   * taken), then its profile, then the group membership.
   */
  method SaveNewAccount(user: Account, rec: ImportRecord, group: string, store: Store) returns (saved: bool)
    requires store.Valid()
    requires user.mail == rec.email && rec.email !in store.accounts && StatusFlag(user.status)
    modifies store
    ensures store.Valid()
    ensures saved <==> user.name !in old(store.names)
    ensures !saved ==>
      && store.accounts == old(store.accounts) && store.names == old(store.names)
      && store.profiles == old(store.profiles) && store.members == old(store.members)
    ensures saved ==>
      && store.accounts == old(store.accounts)[rec.email := user]
      && store.names == old(store.names)[user.name := rec.email]
      && store.profiles == (if store.attachesProfile
                            then old(store.profiles)[rec.email := Profile(rec.firstName, rec.lastName, rec.organization)]
                            else old(store.profiles))
      && store.members == old(store.members) + MembershipFor(group, rec.email)
  {
    saved := store.Insert(user);
    if saved {
      assert rec.email in store.profiles <==> store.attachesProfile;
      CompleteNewAccount(rec, group, store);
    }
  }

  /** The create path of `csvimportImportLine`: no account has the row's e-mail yet. */
  method CreateAccount(rec: ImportRecord, group: string, store: Store, site: Site, draw: int)
    returns (outcome: LineOutcome)
    requires store.Valid()
    requires rec.email !in store.accounts
    requires 2 <= draw <= 6
    modifies store
    ensures store.Valid()
    ensures outcome.Created? || outcome.NameCollision?
    ensures outcome.name == UserNameFromEmail(rec.email, old(store.names).Keys + {AnonymousName}, draw)
    ensures outcome.Created? <==> outcome.name !in old(store.names)
    ensures outcome.NameCollision? ==> store.State() == old(store.State())
    ensures outcome.Created? ==>
      CreateEffect(old(store.State()), store.State(), rec, outcome.name, group, site, store.attachesProfile)
  {
    var name := UserNameFromEmail(rec.email, store.names.Keys + {AnonymousName}, draw);
    var user := BuildNewUser(rec, name, site);
    var saved := SaveNewAccount(user, rec, group, store);
    outcome := if saved then Created(name) else NameCollision(name);
  }

  /** The update path of `csvimportImportLine`: an account has the row's e-mail. */
  method UpdateAccount(rec: ImportRecord, group: string, store: Store, site: Site)
    requires store.Valid()
    requires rec.email in store.accounts
    modifies store
    ensures store.Valid()
    ensures UpdateEffect(old(store.State()), store.State(), rec, group, site)
  {
    var user := ApplyUpdate(store.accounts[rec.email], rec, site);
    if rec.email in store.profiles {
      var profile := MergeProfile(store.profiles[rec.email], rec);
      store.SaveProfile(rec.email, profile);
    }
    JoinGroup(group, rec.email, store);
    store.Update(user);
  }

  /** A data line: once its cells are normalised, `user_load_by_mail` decides between the create and the update path. */
  method ImportRow(cells: seq<string>, group: string, store: Store, site: Site, draw: int)
    returns (outcome: LineOutcome)
    requires store.Valid()
    requires 2 <= draw <= 6
    modifies store
    ensures store.Valid()
    ensures outcome.Updated? <==> EmailOf(cells) in old(store.accounts)
    ensures !outcome.Header?
    ensures outcome.Created? || outcome.NameCollision? ==>
      && outcome.name == UserNameFromEmail(EmailOf(cells), old(store.names).Keys + {AnonymousName}, draw)
      && (outcome.Created? <==> outcome.name !in old(store.names))
    ensures outcome.NameCollision? ==> store.State() == old(store.State())
    ensures outcome.Created? ==>
      CreateEffect(old(store.State()), store.State(), Normalise(cells), outcome.name, group, site, store.attachesProfile)
    ensures outcome.Updated? ==> UpdateEffect(old(store.State()), store.State(), Normalise(cells), group, site)
    ensures outcome.Created? || outcome.Updated? ==> EmailOf(cells) in store.accounts
    ensures old(store.accounts).Keys <= store.accounts.Keys
    ensures outcome.Created? || outcome.Updated? ==>
      store.members == old(store.members) + MembershipFor(group, EmailOf(cells))
  {
    var rec := Normalise(cells);
    var existing := store.LoadByMail(rec.email);
    if existing.None? {
      outcome := CreateAccount(rec, group, store, site, draw);
    } else {
      UpdateAccount(rec, group, store, site);
      outcome := Updated;
    }
  }

  /** `csvimportImportLine`: one batch operation on one base64-encoded line. */
  method ImportLine(line: seq<Encoded>, group: string, ctx: JobContext, store: Store, site: Site, draw: int)
    returns (outcome: LineOutcome)
    requires store.Valid()
    requires 2 <= draw <= 6
    modifies ctx, store
    ensures store.Valid()
    // every line, the header included, is counted and records the group
    ensures ctx.rowsImported == old(ctx.rowsImported) + 1
    ensures ctx.group == group && ctx.uploadedFilename == old(ctx.uploadedFilename)
    ensures ctx.failedRows == old(ctx.failedRows) +
      (if old(ctx.rowsImported) > 0 && Rejected(site, DecodeCells(line)) then [DecodeCells(line)] else [])
    // the first line is the header and leaves the store alone
    ensures outcome.Header? <==> old(ctx.rowsImported) == 0
    ensures outcome.Header? || outcome.NameCollision? ==> store.State() == old(store.State())
    // create or update is decided by the e-mail alone; an invalid e-mail does not stop either
    ensures outcome.Updated? <==> old(ctx.rowsImported) > 0 && EmailOf(DecodeCells(line)) in old(store.accounts)
    // the create path derives the user name once, and saves the account, its profile and its membership
    ensures outcome.Created? || outcome.NameCollision? ==>
      && outcome.name == UserNameFromEmail(EmailOf(DecodeCells(line)), old(store.names).Keys + {AnonymousName}, draw)
      && (outcome.Created? <==> outcome.name !in old(store.names))
    ensures outcome.Created? ==>
      CreateEffect(old(store.State()), store.State(), Normalise(DecodeCells(line)), outcome.name, group, site,
                   store.attachesProfile)
    // the update path changes only that account, its profile and its membership
    ensures outcome.Updated? ==>
      UpdateEffect(old(store.State()), store.State(), Normalise(DecodeCells(line)), group, site)
    ensures outcome.Created? || outcome.Updated? ==> EmailOf(DecodeCells(line)) in store.accounts
    // no line removes an account
    ensures old(store.accounts).Keys <= store.accounts.Keys
    ensures outcome.Created? || outcome.Updated? ==>
      store.members == old(store.members) + MembershipFor(group, EmailOf(DecodeCells(line)))
  {
    ctx.rowsImported := ctx.rowsImported + 1;
    var cells := DecodeCells(line);
    ctx.group := group;
    if ctx.rowsImported <= 1 {
      // the header line
      return Header;
    }

    var email := EmailOf(cells);
    if Truthy(email) {
      if !ValidateEmail(site, email) {
        ctx.failedRows := ctx.failedRows + [cells];
      }
    }

    outcome := ImportRow(cells, group, store, site, draw);
  }

  // ---------------------------------------------------------------------------
  // The finish callback

  /**
   * The messages the finish callback can queue: the download link, the
   * failure to write the CSV (both queued as errors), and the confirmation.
   * The no-directory message is never queued: building it throws (see
   * ReportFailedRows).
   */
  datatype Notice = FailedRowsDownload | FailedRowsUnwritable | ImportCompleted

  /**
   * What the finish callback leaves behind: the failure CSV it writes (its path
   * and the rows written to it, in order), the messages it queues, the
   * redirect it returns, and whether it stopped on an uncaught error.
   */
  datatype FinishReport = FinishReport(
    csvPath: Option<string>,
    written: seq<seq<string>>,
    messages: seq<Notice>,
    redirect: Option<string>,
    aborted: bool)

  const FailedRowsDirectory := "public://csvimport"
  const FailedRowsPrefix := "failed_rows-"

  /** Where the failure CSV goes: directly inside the import directory, named after the upload. */
  function FailedRowsPath(dir: string, prefix: string, uploadedFilename: string): (path: string)
    requires '/' !in prefix && prefix != []
    ensures dir + "/" <= path
    ensures '/' !in path[|dir| + 1..]
    ensures Basename(path) == prefix + Basename(uploadedFilename)
  {
    var csvFilename := prefix + Basename(uploadedFilename);
    BasenameOfJoin(dir, csvFilename);
    assert (dir + "/" + csvFilename)[|dir| + 1..] == csvFilename;
    dir + "/" + csvFilename
  }

  /** The `fputcsv` loop of the finish callback: every row goes out once, in stored order. */
  method WriteRows(rows: seq<seq<string>>) returns (written: seq<seq<string>>)
    ensures written == rows
  {
    written := [];
    var i := 0;
    while i < |rows|
      invariant 0 <= i <= |rows|
      invariant written == rows[..i]
    {
      assert rows[..i + 1] == rows[..i] + [rows[i]];
      written := written + [rows[i]];
      i := i + 1;
    }
  }

  /**
   * The failed-rows part of `csvimportImportFinished`: with rows to report, try
   * to prepare the directory and open the file, write the rows, and say how it
   * went. Whether the directory could be prepared and the file opened are
   * answers of the file system, passed in. When the directory cannot be
   * prepared, the message's placeholders are the array only the other branch
   * assigns: `t()` receives null for its array parameter and throws, so
   * nothing is queued and the callback is `aborted`.
   */
  method ReportFailedRows(failedRows: seq<seq<string>>, uploadedFilename: string, directoryReady: bool, fileOpened: bool)
    returns (csvPath: Option<string>, written: seq<seq<string>>, messages: seq<Notice>, aborted: bool)
    ensures aborted <==> failedRows != [] && !directoryReady
    ensures csvPath.Some? <==> failedRows != [] && directoryReady
    ensures csvPath.Some? ==> csvPath.value == FailedRowsPath(FailedRowsDirectory, FailedRowsPrefix, uploadedFilename)
    ensures written == if csvPath.Some? && fileOpened then failedRows else []
    ensures messages ==
      if failedRows == [] || !directoryReady then []
      else if !fileOpened then [FailedRowsUnwritable]
      else [FailedRowsDownload]
  {
    csvPath, written, messages, aborted := None, [], [], false;
    if failedRows != [] {
      if directoryReady {
        if fileOpened {
          written := WriteRows(failedRows);
          messages := [FailedRowsDownload];
        } else {
          messages := [FailedRowsUnwritable];
        }
        csvPath := Some(FailedRowsPath(FailedRowsDirectory, FailedRowsPrefix, uploadedFilename));
      } else {
        aborted := true;
      }
    }
  }

  /**
   * `csvimportImportFinished`: report the failed rows, confirm success, and
   * send the user back to the group. When the failed-rows report throws, the
   * confirmation and the redirect are never reached.
   */
  method ImportFinished(success: bool, results: JobResults, directoryReady: bool, fileOpened: bool)
    returns (report: FinishReport)
    ensures report.aborted <==> results.failedRows != [] && !directoryReady
    ensures report.aborted ==> report.messages == [] && report.redirect.None?
    ensures report.csvPath.Some? <==> results.failedRows != [] && directoryReady
    ensures report.csvPath.Some? ==> report.csvPath.value == FailedRowsPath(FailedRowsDirectory, FailedRowsPrefix, results.uploadedFilename)
    ensures report.written == if report.csvPath.Some? && fileOpened then results.failedRows else []
    ensures !report.aborted ==>
      report.messages ==
        (if results.failedRows == [] then []
         else if fileOpened then [FailedRowsDownload]
         else [FailedRowsUnwritable])
        + (if success then [ImportCompleted] else [])
    ensures report.redirect.Some? <==> !report.aborted && Truthy(results.group)
    ensures report.redirect.Some? ==> report.redirect.value == "/group/" + results.group + "/membership"
  {
    var csvPath, written, messages, aborted :=
      ReportFailedRows(results.failedRows, results.uploadedFilename, directoryReady, fileOpened);
    var redirect: Option<string> := None;
    if !aborted {
      if success {
        messages := messages + [ImportCompleted];
      }
      if Truthy(results.group) {
        redirect := Some("/group/" + results.group + "/membership");
      }
    }
    report := FinishReport(csvPath, written, messages, redirect, aborted);
  }

}
