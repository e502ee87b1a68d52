# csvimport — a Dafny model of the CSV user import

csvimport is a Drupal module that imports user accounts from an uploaded CSV
file into a site and into one group. It has two parts, and this project
models both.

- **The upload form** (`CsvImportForm`):
  - maps the delimiter option to a character;
  - rejects a file whose first cell is not a known column name;
  - on submission, queues a batch. The batch is one operation that remembers
    the file name, then one operation per parsed line, the header line
    included. Each line operation carries the line's cells, base64-encoded,
    and the group id.
  - decides who may open the form for a group.
- **The batch callbacks** (`CsvImportBatch`):
  - each line operation counts the line and records the group. It skips the
    first line as the header.
  - for a data line, it normalises the eight columns and records the line as
    failed when its e-mail is truthy but invalid. It then creates a new
    account or updates the one with that e-mail, fills the account's profile
    and adds the account to the group.
  - the finish callback writes the failed lines to a CSV in the import
    directory `public://csvimport` (the upload itself is copied to
    `temporary://csvfile`), queues its messages and redirects to the group's
    membership page.

## Modules

- `Wrappers`: `Option`.
- `PhpStrings`: the PHP string built-ins the import relies on:
  - truthiness of a string ("" and "0" are falsy);
  - `trim`;
  - `str_replace(' ', '', ·)`;
  - the first piece of `explode`;
  - `basename`.
- `Codec`: base64 as a bijection between a cell and its encoded form.
- `IdentityStore`: the site's user accounts, user-name index, profiles and group memberships. They are held in a class `Store`, which the batch updates in place.
- `CsvImportBatch`:
  - the field validators;
  - user-name derivation;
  - row normalisation;
  - the `JobContext` class, which is the batch's `$context['results']`;
  - the line callback, split into its create and update paths;
  - the finish callback.
- `CsvImportForm`: the delimiter mapping, header check, `validateForm`, the plan built by `submitForm`, and `access`.
- `ImportJob`: runs a plan built by `submitForm` against a fresh context, the way the batch API does.
  - It proves that the header skip in the line callback is exactly right for such a plan. Every line is counted and only the first is skipped.
  - It proves that the failed rows are the rejected data rows, in file order.
  - It proves that every row that was created or updated ends with an account and, for a truthy group, a membership.

### Behaviour kept as the code has it

The model reproduces these behaviours of the code, although some of them are surprising:

- A row with an invalid e-mail is recorded as failed and is then still created or updated: the validation result does not stop the line.
- A row whose e-mail is "" or "0" (falsy in PHP) is never validated and never recorded as failed, and is imported like any other row.
- A new account is always active (status "1"), whatever the row's status column says: the status computed from the row is overwritten by `activate()`.
- An existing account takes the row's status string as it is, and only when it is exactly "0" or "1"; any other value leaves the status alone.
- An existing profile field is overwritten only by a truthy value: an empty cell or "0" leaves the stored value in place.
- The header check looks only at the first cell of the first line. It compares that cell with the list the form's code holds. That list has `field_profile_first_name` twice, spells `field_profile_organisation` with an s, and lacks `field_profile_last_name`. So it differs from the column list in the form's help text, and `CsvImportForm.HeaderListAgainstHelp` states exactly how.
- When there are failed rows but the failure directory cannot be prepared, the finish callback builds its message from the placeholder array `$targs`. Only the other branch assigns that array, so `t()` receives null for an array parameter and throws. Nothing is queued, and neither "Import completed!" nor the redirect is reached. The model records this as `aborted` in `ReportFailedRows`, `ImportFinished` and `ImportJob.RunBatch`, and never queues the no-directory message.

## Model

| member | source | states |
|---|---|---|
| CsvImportBatch.ValidateEmail | src/Batch/CsvImportBatch.php:338-343 | an e-mail is valid exactly when the site's e-mail validator accepts it |
| CsvImportBatch.ValidateStatus | src/Batch/CsvImportBatch.php:345-350 | a status validates exactly when it is a storable flag, "0" or "1", so it is one character long |
| CsvImportBatch.IsValidLangcode | src/Batch/CsvImportBatch.php:302-312 | a langcode is valid exactly when it is one of the site's language keys |
| CsvImportBatch.IsValidTimezone | src/Batch/CsvImportBatch.php:314-324 | a timezone is valid exactly when it is one of the allowed timezone identifiers |
| CsvImportBatch.CreatedAccountSettingsAllowed | src/Batch/CsvImportBatch.php:182-196 | with the site's default timezone and current language allowed, a new account's timezone and all three language fields are allowed values |
| CsvImportBatch.UpdatedAccountSettingsAllowed | src/Batch/CsvImportBatch.php:249-266 | an update keeps an account's status a flag, its timezone allowed and its three language fields site languages, since it writes only validated values |
| CsvImportBatch.ValidateStatusStrict | src/Batch/CsvImportBatch.php:345-350 | a status validates exactly when it is the one-character string "0" or "1"; " 1", "01", "1.0" and "" are refused; a valid status is a storable flag |
| CsvImportBatch.CleanPassword | src/Batch/CsvImportBatch.php:352-354 | the cleaned password has no space, keeps every other character with its multiplicity, and a password without spaces is unchanged |
| PhpStrings.StripSpacesAppend | src/Batch/CsvImportBatch.php:353 | removing spaces commutes with concatenation, so the kept characters stay in their original order |
| PhpStrings.StripSpacesKeeps | src/Batch/CsvImportBatch.php:135 | removing spaces from a string with no space leaves it unchanged |
| PhpStrings.ExplodeHead | src/Batch/CsvImportBatch.php:327-328 | the first piece is a prefix of the e-mail without '@', and it ends at the first '@' or at the end of the string |
| PhpStrings.DecimalDigit | src/Batch/CsvImportBatch.php:332 | the character appended for a drawn number 0..9 is its decimal digit |
| CsvImportBatch.UserNameFromEmail | src/Batch/CsvImportBatch.php:326-336 | the name is the part before '@' when no account has that name, otherwise that part plus '_' and one digit 2..6; the name never holds '@'; it holds no space when the e-mail has none |
| CsvImportBatch.UserNameSingleAttempt | src/Batch/CsvImportBatch.php:326-335 | for every e-mail, set of taken names and draw, the derived name is taken exactly when both the local part and the local part with the one drawn suffix are taken: the suffixed name is never checked again |
| CsvImportBatch.UserNameStillTakenExample | src/Batch/CsvImportBatch.php:330-333 | with "ann" and "ann_2" taken and 2 drawn, the name derived for ann@example.org is taken |
| PhpStrings.Trim | src/Batch/CsvImportBatch.php:137-141 | the result neither starts nor ends with a trim character, and it is a slice of the input whose surroundings are only trim characters |
| PhpStrings.TrimUnique | src/Batch/CsvImportBatch.php:137-141 | any slice with trim-only surroundings and non-trim ends is the trimmed string, so the contract of Trim characterises it |
| PhpStrings.TrimIdempotent | src/Batch/CsvImportBatch.php:137-141 | trimming twice gives the same as trimming once |
| CsvImportBatch.Normalise | src/Batch/CsvImportBatch.php:134-143 | the e-mail of a normalised row is the row's EmailOf; e-mail, langcode and timezone hold no space; status, password and the three profile fields have no trim character at either end; a row with at most one cell has an empty status and one with at most seven an empty timezone |
| CsvImportBatch.NormaliseColumns | src/Batch/CsvImportBatch.php:134-143 | each field comes from its own column: status, password, first name, last name and organisation are slices of cells 1 to 5 with only trim characters around them (with Normalise's contract and TrimUnique, exactly `trim` of that cell); e-mail, langcode and timezone keep every non-space character of cells 0, 6 and 7 with its multiplicity; every cell the row lacks gives "" for its field |
| CsvImportBatch.NormaliseStable | src/Batch/CsvImportBatch.php:134-143 | the normalised e-mail, langcode and timezone hold no space, and normalising a normalised row changes nothing |
| CsvImportBatch.FailedRowsAppend | src/Batch/CsvImportBatch.php:145-149 | the failed rows of two consecutive runs of rows are those of the first run followed by those of the second |
| CsvImportBatch.FailedRowsExactly | src/Batch/CsvImportBatch.php:145-149 | a row is among the failed rows exactly when it is one of the rows and its e-mail is truthy and refused by the validator |
| CsvImportBatch.MembershipFor | src/Batch/CsvImportBatch.php:219-222 | a line adds a membership only for a truthy group id, and only the pair of that group and the account |
| CsvImportBatch.RememberFilename | src/Batch/CsvImportBatch.php:98-101 | the context's uploaded file name becomes the argument; the count, the failed rows and the group are unchanged |
| CsvImportBatch.BuildNewUser | src/Batch/CsvImportBatch.php:158-198 | the new account has the derived name, the e-mail as mail and init, status "1" after activation, the cleaned password, the row's timezone or the site default when invalid, and the row's langcode or the current language when invalid, for all three language fields |
| CsvImportBatch.ApplyUpdate | src/Batch/CsvImportBatch.php:249-266 | an update keeps name, mail, init and password; it takes the row's status only when it validates, its timezone only when allowed, and its langcode for all three language fields only when it is a site language |
| CsvImportBatch.MergeProfile | src/Batch/CsvImportBatch.php:273-285 | each profile field is overwritten only by a truthy incoming value |
| CsvImportBatch.JoinGroup | src/Batch/CsvImportBatch.php:219-222 | the memberships grow by the membership for the group; accounts, names and profiles are unchanged |
| CsvImportBatch.FillNewProfile | src/Batch/CsvImportBatch.php:210-217 | a profile attached to the new account receives the three name fields as they are; without a profile nothing changes |
| CsvImportBatch.SaveNewAccount | src/Batch/CsvImportBatch.php:197-222 | the save succeeds exactly when the user name is free; on success the account, its name, its filled profile and its membership are added; otherwise the store is unchanged |
| CsvImportBatch.CreateAccount | src/Batch/CsvImportBatch.php:155-241 | the user name is derived with the empty name of the anonymous account counted as taken; the create path then adds only the account described by BuildNewUser's contract under that name, indexes the name, fills the attached profile and adds the membership; a taken name leaves the store unchanged; the store's invariant is kept |
| CsvImportBatch.UpdateAccount | src/Batch/CsvImportBatch.php:242-298 | the update path replaces only the account with the row's e-mail, as ApplyUpdate's contract describes; it merges the profile when one exists and adds the membership; names and profile keys are unchanged |
| CsvImportBatch.ImportRow | src/Batch/CsvImportBatch.php:153-298 | a data row updates exactly when its normalised e-mail has an account, and creates otherwise; a created row gets the derived name and the full create-path store (CreateEffect: active account with the row's values or the site defaults, name index, filled profile, membership); an updated row gets the full update-path store (UpdateEffect: only that account, as ApplyUpdate says, its merged profile and its membership); a name collision leaves the store unchanged |
| CsvImportBatch.ImportLine | src/Batch/CsvImportBatch.php:107-300 | every call counts the line and records the group; only the first call is the header and leaves the store alone; a data line whose e-mail is truthy and invalid is appended to the failed rows and is still imported; a data line then has exactly ImportRow's effect on the store, create or update decided by its e-mail |
| PhpStrings.Basename | src/Batch/CsvImportBatch.php:46 | a base name holds no '/', and a path without '/' is its own base name |
| PhpStrings.BasenameOfJoin | src/Batch/CsvImportBatch.php:46-47 | the base name of a directory joined with a non-empty name without '/' is that name |
| PhpStrings.BasenameTrailingSlash | src/Batch/CsvImportBatch.php:46 | a trailing '/' does not change the base name |
| CsvImportBatch.FailedRowsPath | src/Batch/CsvImportBatch.php:41-47 | the failure CSV lies directly inside the import directory, and its base name is the prefix followed by the upload's base name |
| CsvImportBatch.WriteRows | src/Batch/CsvImportBatch.php:59-61 | every failed row is written once, in stored order |
| CsvImportBatch.ReportFailedRows | src/Batch/CsvImportBatch.php:39-73 | a failure CSV is named exactly when there are failed rows and the directory is ready; the rows are written only when the file opens too, and the one message says whether they were; with failed rows and no directory the report is aborted and queues nothing, because the message's placeholder array is unset |
| CsvImportBatch.ImportFinished | src/Batch/CsvImportBatch.php:33-90 | the failed-rows report as above; unless it aborted, the queued messages are exactly the report's one message, when there are failed rows, followed by "Import completed!" when the batch succeeded; a redirect to `/group/<id>/membership` exactly when the report did not abort and the group id is truthy; an aborted callback queues no message and returns no redirect |
| Codec.DecodeCells | src/Batch/CsvImportBatch.php:110 | decoding keeps the number of cells and each decoded cell encodes back to its input |
| Codec.EncodeCells | src/Form/CsvImportForm.php:213 | encoding keeps the number of cells and each encoded cell decodes back to its input |
| Codec.DecodeEncodeCells | src/Form/CsvImportForm.php:213 | the line callback sees exactly the cells the form parsed |
| Codec.EncodeCellsInjective | src/Form/CsvImportForm.php:213 | different rows are queued as different operations |
| IdentityStore.Store.LoadByMail | src/Batch/CsvImportBatch.php:153 | the lookup finds an account exactly when one has that e-mail, and then that account |
| IdentityStore.Store.Insert | src/Batch/CsvImportBatch.php:199 | a new account is saved exactly when its user name is free, with its name indexed and, on sites that attach one, an empty profile; a refused save changes nothing; the store invariant is kept |
| IdentityStore.Store.Update | src/Batch/CsvImportBatch.php:296 | saving an existing account replaces only that account |
| IdentityStore.Store.SaveProfile | src/Batch/CsvImportBatch.php:216 | saving a profile replaces only that profile |
| IdentityStore.Store.AddMember | src/Batch/CsvImportBatch.php:221 | adding a member adds exactly one membership pair; adding it twice is the same as adding it once |
| CsvImportForm.DelimiterFor | src/Form/CsvImportForm.php:138-143 | option 1 gives ';' and every other value gives ','; the same mapping serves validation and submission |
| CsvImportForm.DelimiterAgreesWithOptions | src/Form/CsvImportForm.php:48-51 | for both options of the select, the mapping gives the character the select shows |
| CsvImportForm.HeaderOnlyFirstCell | src/Form/CsvImportForm.php:161 | lines with the same first cell are accepted or refused alike, whatever their other cells |
| CsvImportForm.HeaderListAgainstHelp | src/Form/CsvImportForm.php:159-161 | a first cell is accepted exactly when it is a column of the help list other than last name and "organization", or is "field_profile_organisation" |
| CsvImportForm.ValidateForm | src/Form/CsvImportForm.php:134-171 | an error is set exactly when the upload path is truthy and the file is unreadable or its first line's first cell is not accepted; an unreadable file gives the read error naming the path; a readable file whose first cell is refused gives the format error; an empty file passes |
| CsvImportForm.SubmitForm | src/Form/CsvImportForm.php:176-222 | the plan always names the finish callback; it has no operations without a truthy upload path or with an unreadable file; otherwise it remembers the file name and then imports every parsed line, header included, in order, with the form's group |
| CsvImportForm.PlanDeterminesInput | src/Form/CsvImportForm.php:202-215 | a plan determines the file name and the rows it was built from, and the group whenever there is a row |
| CsvImportForm.Access | src/Form/CsvImportForm.php:234-257 | access is allowed exactly when a group is given and either the account is a member with "edit group" or it is no member and holds the administrator role |
| CsvImportForm.AdministratorIrrelevantForMembers | src/Form/CsvImportForm.php:244-251 | for a member, holding the administrator role or not makes no difference |
| CsvImportForm.NoGroupForbidden | src/Form/CsvImportForm.php:240-255 | without a group, access is forbidden whatever the roles |
| ImportJob.Execute | src/Form/CsvImportForm.php:202-214 | a file-name operation runs the remember callback and leaves the store unchanged; a line operation runs the line callback with its whole contract: the context update, the header and collision cases that leave the store unchanged, update exactly for a known e-mail, and the create-path and update-path store effects |
| ImportJob.DataRows | src/Batch/CsvImportBatch.php:132 | the data rows are all lines but the first |
| ImportJob.Run | src/Batch/CsvImportBatch.php:107-149 | after a planned batch on a fresh context, every line is counted, only the first is treated as the header, the failed rows are exactly the rejected data rows in file order, and each created or updated row has its account and membership |
| ImportJob.RunBatch | src/Batch/CsvImportBatch.php:33-90 | the planned batch followed by the finish callback on the context's results: the failure CSV is named after the upload and receives exactly the rejected data rows in file order when the directory is ready and the file opens; the finish callback aborts exactly when some data row was rejected and the directory is not ready; the redirect happens exactly when it did not abort, the file had a line and the group id is truthy |

## Left out

- Reading and writing files is not modelled:
  - `fopen` and `fgetcsv` of the upload: a readable upload is given as the rows parsed for each delimiter, and an unreadable one as `Unreadable`;
  - `file_save_upload`, `file_copy` and `prepareDirectory`;
  - `fopen`, `fputcsv` and `fclose` of the failure CSV: whether the directory is ready and the file opened are parameters of the finish callback, and the written rows are its result.
  - Nor are the 4096-byte line limit of `fgetcsv` or CSV quoting.
- Messenger, logger and `t()` are not modelled. Messages are the `Notice` values; their texts and placeholders are not modelled. The progress text in `$context['message']` and `file_create_url` are not modelled either. The error raised in the no-directory branch is only the `aborted` flag: what the batch API and the browser do with the uncaught error is not modelled.
- `buildForm` is render arrays only. Two of its lists are kept as constants because properties are stated against them: the delimiter options and the help list of columns.
- Foreign services are parameters of `Site`:
  - the e-mail validator is an arbitrary predicate;
  - the language manager gives the site languages and the current langcode;
  - `User::getAllowedTimezones` and `system.date` give the timezones and the default.
  - Entity storage, `save()`, `loadByUser` and the group API are the `Store` class.
  - The group id is taken to name an existing group.
- `random_int(2, 6)` is the `draw` parameter. The runner gets one draw per operation.
- A user name that is still taken after the single draw is refused by the store as a uniqueness failure. The line's outcome is `NameCollision` and the store is unchanged. The exception that aborts the batch in PHP is not modelled: the runner goes on with the next line.
- Accounts are found by exact e-mail. The anonymous account is not in the store; its empty user name is counted as taken when a user name is derived, so an e-mail with an empty local part gets a suffixed name, as in PHP. Passwords are the cleaned plain text handed to `setPassword`; hashing is not modelled.
- Whether the site attaches a profile to a new account is the store's `attachesProfile` setting.
- The commented-out `Profile::create` block is dead code and is not modelled.
- `CsvImportForm.DelimiterFor`: the option is taken as an integer. PHP's loose comparison `== 1` on the form's string value is not modelled.
- `CsvImportBatch.IsValidTimezone` and `CsvImportBatch.IsValidLangcode`: `in_array` compares loosely, and `array_key_exists` treats integer-like keys as integers. The model compares exactly, which agrees for the non-numeric identifiers and language codes.
- `CsvImportForm.HeaderAccepted`: in PHP, `in_array` compares loosely. The model compares exactly, which agrees for the non-numeric names in the list.
- `access` loads the user only for its roles. Roles are a parameter, and the membership object is reduced to its group permissions.
- The batch API's chunking, progress and resumption are not modelled. The runner executes the operations in order, in one pass.
