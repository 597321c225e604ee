# A verified model of the file store, the hop validator, the user model and the aladdin runner

This project models four parts of a small Node.js application and proves what they promise.

- **The document store** (`lib/db`). A database is a directory under the working directory, with one directory per collection and one JSON file per document. `create` writes a document exclusively, `get` reads it back with `_id` set, `delete` removes the file, and `update` merges new data over the stored document. The file system is an abstract state: a set of directories, a map from file paths to their contents, and a set of paths on which every operation fails. The promise wrappers of `file-util.js` are methods on the machine's `Disk`, and so are the store operations of the `Database` and `Collection` classes. Each method is tied to a pure transition function, and the lemmas are about those functions.
- **The hop validator** (`lib/hop`). A hop type holds an ordered list of named rules. Its builders edit that list in place and return the same object, and `validate` folds the data through the list. `validate(data, schema)` takes a single hop type or an object of hop types. For an object it gives the validated object and one detail per failing field.
- **The error helpers** (`lib/error`) and **the user model** (`models/user`). Validation errors carry details that a hop schema normalises. A user's document id is the email with `@` and `.` removed. Updates pass on only the supplied fields.
- **The aladdin runner** (`lib/aladdin/runner`). The test app holds a first-in first-out queue of tests and four lists of hooks. The runner awaits the `beforeAll` hooks, then each queued test between the `beforeEach` hooks and the `afterEach` hooks, then the `afterAll` hooks. Before-hooks run first to last and after-hooks last to first. A callback either returns or throws, and it may do one for one test and the other for the next: the set of invocations that throw, each a callback with the round it runs in, is a parameter. A run is described by the trace of the calls it makes and the results it reports.

JavaScript values are the datatype `Json.Value`. A thrown exception becomes the `Err` side of a `Result`. I/O failures, the working directory and the behaviour of callbacks are parameters.

Modules, one per file: `Wrappers`, `Json`, `HopUtils`, `HopRules`, `HopTypes`, `HopValidate`, `AppErrors`, `JsonText`, `Fs`, `FileUtil`, `Db`, `UserModel`, `TestApp`, `Runnable`.

## Model

| member | source | states |
|---|---|---|
| Json.OwnEntries | lib/db/index.js:56 | The properties `{...v}` copies: an object's own fields; an array's items, or a string's characters as one-character strings, under exactly their decimal indices; nothing for any other value. |
| Json.Spread | lib/db/index.js:111 | `{...a, ...b}` has the keys of both; `b` wins on its own keys and `a` keeps the others. |
| Json.WithId | lib/db/index.js:56 | `{...v, _id: id}` has exactly `v`'s keys plus `_id`, `_id` is the id, and every other key keeps `v`'s value. |
| Json.NatTextRoundTrip | lib/db/index.js:56 | Reading the decimal rendering of an array index back gives the index, so spread array keys are distinct. |
| Json.NatTextInjective | lib/db/index.js:56 | Distinct indices render to distinct property names. |
| Json.JsonifyKeepsClean | lib/db/index.js:54 | `JSON.parse(JSON.stringify(v))` returns a value with no `undefined` in it unchanged. |
| Json.JsonifyIsClean | lib/db/index.js:54 | Whatever goes through the JSON round trip comes out without `undefined`. |
| HopUtils.TrimStartCutsSpaces | lib/hop/utils.js:10 | The front trim cuts exactly the leading run of white space. |
| HopUtils.TrimEndCutsSpaces | lib/hop/utils.js:10 | The back trim cuts exactly the trailing run of white space. |
| HopUtils.TrimIsSlice | lib/hop/utils.js:10 | `trim()` is the slice between the leading and trailing white space and neither starts nor ends with white space. |
| HopUtils.TrimDropsSpaces | lib/hop/utils.js:10 | Everything `trim()` removes at either end is white space. |
| HopUtils.BlankTrimsToEmpty | lib/hop/utils.js:10 | Text of white space only trims to the empty string. |
| HopUtils.TrimUnpadded | lib/hop/utils.js:10 | Text with no white space at either end is its own trim. |
| HopUtils.TrimPadded | lib/hop/utils.js:10 | One space on either side is exactly what `trim()` removes. |
| HopUtils.DigitRunIsDigits | lib/hop/utils.js:14 | The digit scanner used by `Number(text)` stops exactly at the first non-digit. |
| HopUtils.ParsedTextIsNumeric | lib/hop/utils.js:14-16 | Text that `Number` reads holds only digits, signs and points. |
| HopUtils.NonNumericTextNotNumber | lib/hop/utils.js:9-17 | Text with a character that is neither white space nor part of a number is not a number. |
| HopUtils.EmptyValues | lib/hop/utils.js:27 | `isEmpty` holds exactly for undefined, null and `''`. |
| HopUtils.StringValues | lib/hop/utils.js:3 | `isString` holds exactly for strings. |
| HopUtils.NullAndArraysAreObjects | lib/hop/utils.js:5-7 | `isNull` and `isArray` both imply `isObject`. |
| HopUtils.EmptyAndBlankAreNotNumbers | lib/hop/utils.js:10-12 | No empty value and no blank text is a number. |
| HopUtils.IntegersAndFloatsAreNumbers | lib/hop/utils.js:19-21 | `isInteger` and `isFloat` both imply `isNumber`. |
| HopUtils.BlankArraysAreZero | lib/hop/utils.js:9-21 | `[]`, `[null]` and `[undefined]` are numbers equal to 0, but neither integers nor floats. |
| HopUtils.OneTextArrayNumber | lib/hop/utils.js:9-21 | A one-element array of non-blank text is a number, has a value and is an integer exactly as that text is. |
| HopUtils.ManyItemsNotNumber | lib/hop/utils.js:9-17 | An array of two or more items is never a number. |
| HopUtils.DigitsValueFront | lib/hop/utils.js:14 | Decimal digits read front to back denote the number they denote read back to front. |
| HopUtils.DigitRunReadsAll | lib/hop/utils.js:14 | The digit scanner `Number` uses reads all of a digit string and gives its number. |
| HopUtils.NatArrayNumber | lib/hop/utils.js:9-21 | A one-element array of a natural number is a number equal to it and an integer (`Number([5])` is 5). |
| HopRules.Required | lib/hop/rules.js:17-24 | Rejects exactly undefined, null and `''` with `<subject> is required`, and passes everything else unchanged. |
| HopRules.ValidateAsString | lib/hop/rules.js:35-42 | Passes exactly strings (and undefined when optional) unchanged; otherwise `<subject> must be a string`. |
| HopRules.ValidateAsInt | lib/hop/rules.js:53-62 | Passes exactly integers (or an optional undefined); a passing value that is not an optional undefined comes back as `Number(data)`, a whole number; otherwise `<subject> must be an integer`. |
| HopRules.ValidateAsNumber | lib/hop/rules.js:73-82 | Passes exactly numbers (or an optional undefined), giving back `Number(data)`; otherwise `<subject> must be a number`. |
| HopRules.CheckMin | lib/hop/rules.js:147-169 | A number passes when at least the bound, otherwise `<subject> must be greater than or equal to <bound>`; any other non-empty value with a length passes when its JavaScript length is at least the bound, otherwise `<subject> must have at least <bound> characters`; a passing value is unchanged. |
| HopRules.CheckMax | lib/hop/rules.js:235-257 | A number passes when at most the bound, otherwise `<subject> must be less than or equal to <bound>`; any other non-empty value with a length passes when its JavaScript length is at most the bound, otherwise `<subject> must have at most <bound> characters`; a passing value is unchanged. |
| HopRules.NumberBelowMin | lib/hop/rules.js:118-140 | A number below the bound is refused with `must be greater than or equal to <bound>`. |
| HopRules.NumberAboveMax | lib/hop/rules.js:205-227 | A number above the bound is refused with `must be less than or equal to <bound>`. |
| HopRules.TextMinLength | lib/hop/rules.js:89-111 | On non-numeric non-empty text, `min` passes exactly when the UTF-16 length is at least the bound, and otherwise refuses with `<subject> must have at least <bound> characters`. |
| HopRules.TextMaxLength | lib/hop/rules.js:176-198 | On non-numeric non-empty text, `max` passes exactly when the UTF-16 length is at most the bound, and otherwise refuses with `<subject> must have at most <bound> characters`. |
| HopRules.Utf16Length | lib/hop/rules.js:89-111 | `data.length` of text counts UTF-16 units: at least one and at most two per character. |
| HopRules.PlaneZeroLength | lib/hop/rules.js:89-111 | Text without astral characters is as long as its character count. |
| HopRules.AstralCharLength | lib/hop/rules.js:176-198 | One astral character is two units long. |
| HopRules.AstralTextExceedsOne | lib/hop/rules.js:176-198 | `max(1)` refuses a single astral character, with `field must have at most 1 characters`. |
| HopRules.OneTextArrayMin | lib/hop/rules.js:118-140 | `min` treats a one-element array of numeric text as that number, comparing its value and not its length. |
| HopRules.NatArrayMin | lib/hop/rules.js:118-169 | `min` treats a one-element array of a natural number as that number and compares its value. |
| HopRules.NatArrayMinExample | lib/hop/rules.js:118-169 | `min(3)` passes `[5]` unchanged. |
| HopRules.Min | lib/hop/rules.js:147-150 | Building `min` succeeds exactly for a numeric bound; otherwise it throws `<bound> is not a number`. |
| HopRules.Max | lib/hop/rules.js:235-238 | Building `max` succeeds exactly for a numeric bound; otherwise it throws `<bound> is not a number`. |
| HopRules.DomainEnds | lib/hop/rules.js:5 | A domain of the email pattern starts and ends with a label character. |
| HopRules.AddressEnds | lib/hop/rules.js:5 | An address of the email pattern starts and ends with a non-space character. |
| HopRules.AddressIsTrimmed | lib/hop/rules.js:5 | An address is its own trim. |
| HopRules.AddressIsNotNumber | lib/hop/rules.js:5 | An address is never numeric text. |
| HopRules.AddressLength | lib/hop/rules.js:5 | An address has no astral character, so its JavaScript length is its character count. |
| HopRules.Email | lib/hop/rules.js:268-275 | Passes exactly the values matching the pattern (or an optional undefined), unchanged; otherwise `"<data>" is not a valid email address` for a named field and `field is not a valid email address` without one. |
| HopRules.EmailOnText | lib/hop/rules.js:268-275 | On text, an address passes unchanged and anything else throws `field is not a valid email address`. |
| HopRules.EmailExamples | lib/hop/rules.test.js:75-81 | `some@mail.com` passes and `some.com` is refused. |
| HopRules.EmptyLabelIsNoDomain | lib/hop/rules.js:5 | A domain with an empty label between two dots does not match. |
| HopRules.EmailRejectsEmptyLabel | lib/hop/rules.js:5 | `a@b..com` is refused. |
| HopRules.TrimValue | lib/hop/rules.js:283 | A string comes back trimmed; any other value unchanged. |
| HopRules.Valid | lib/hop/rules.js:291-315 | Building `valid` succeeds exactly for an array argument. |
| HopRules.Invalid | lib/hop/rules.js:323-347 | Building `invalid` succeeds exactly for an array argument. |
| HopRules.CheckValid | lib/hop/rules.js:297-314 | Passes exactly the listed values (or an optional undefined), unchanged; otherwise `<subject> must be one of [<values joined by commas>]`. |
| HopRules.CheckInvalid | lib/hop/rules.js:329-346 | Passes exactly the values not listed, unchanged, whatever the flags; otherwise `<subject> must not be one of [<values joined by commas>]`. |
| HopRules.GetDefault | lib/hop/rules.js:355 | A truthy value is kept and a falsy one is replaced by the default. |
| HopRules.Apply | lib/hop/rules.js:283 | `trim` and `default` never throw. |
| HopRules.DefaultReplacesFalsy | lib/hop/rules.js:355 | `0`, `false`, `''`, undefined and null are all replaced by the default. |
| HopRules.RequiredExamples | lib/hop/rules.test.js:11-25 | Missing data gives `field is required`, a named field is quoted, and a non-empty string passes. |
| HopRules.TrimExample | lib/hop/rules.test.js:87-89 | `' something '` trims to `'something'`. |
| HopRules.MembershipExamples | lib/hop/rules.test.js:94-111 | `valid(['john','jane'])` passes `'jane'` and refuses `'doe'` with `field must be one of [john,jane]`; `invalid` of the same list refuses `'john'` with `field must not be one of [john,jane]` and passes `'doe'`; a non-array list throws `Argument must be an array`. |
| HopRules.SampleIsAddress | lib/hop/rules.test.js:79-81 | `some@mail.com` matches the pattern. |
| HopRules.MissingAtIsNoAddress | lib/hop/rules.test.js:75 | `some.com` does not match the pattern. |
| HopTypes.FindIndex | lib/hop/types/base.js:13 | The index of the first rule with the name, or -1 exactly when there is none. |
| HopTypes.RunAppend | lib/hop/types/base.js:45-47 | Running two rule lists one after the other is running their concatenation. |
| HopTypes.RequiredLastYieldsNonEmpty | lib/hop/types/base.js:19 | A list that ends with `required` never yields undefined, null or `''`. |
| HopTypes.ErrorEscapes | lib/hop/types/base.js:45-47 | A rule that throws mid-list makes the whole run throw its message. |
| HopTypes.DefaultRunsFirst | lib/hop/types/base.js:22-25 | A `default` at the head turns missing data into the default before any other rule runs. |
| HopTypes.TrimRunsFirst | lib/hop/types/string.js:26-29 | A `trim` at the head means every later rule sees the trimmed string. |
| HopTypes.HopType.Required | lib/hop/types/base.js:12-21 | Drops the first `optional` rule, if any, appends `required`, and returns the same object. |
| HopTypes.HopType.Default | lib/hop/types/base.js:22-25 | Puts a `default` rule in front and returns the same object. |
| HopTypes.HopType.Allowed | lib/hop/types/base.js:26-29 | Appends an `allowed` rule; a non-array argument throws and leaves the list unchanged. |
| HopTypes.HopType.Disallowed | lib/hop/types/base.js:30-33 | Appends a `disallowed` rule; a non-array argument throws and leaves the list unchanged. |
| HopTypes.HopType.Min | lib/hop/types/string.js:14-17 | Appends a `min` rule for a numeric bound; otherwise throws and leaves the list unchanged. |
| HopTypes.HopType.Max | lib/hop/types/string.js:18-21 | Appends a `max` rule for a numeric bound; otherwise throws and leaves the list unchanged. |
| HopTypes.HopType.Email | lib/hop/types/string.js:22-25 | Appends an `email` rule and returns the same object. |
| HopTypes.HopType.Trim | lib/hop/types/string.js:26-29 | Puts a `trim` rule in front and returns the same object. |
| HopTypes.HopType.Integer | lib/hop/types/number.js:22-25 | Appends an `integer` rule and returns the same object. |
| HopTypes.HopType.Int | lib/hop/types/number.js:26-28 | Has the same effect as `integer()`. |
| HopTypes.HopType.Validate | lib/hop/types/base.js:44-50 | Succeeds exactly when the rule fold does, and then gives the original input, the last rule's output and the field; otherwise gives the first error. |
| HopTypes.TrimThenString | lib/hop/types/string.js:7-8 | `trim` followed by the string rule yields a string trimmed and refuses anything else. |
| HopTypes.AddressBounds | lib/hop/types/string.js:14-21 | On an address, `min` and `max` compare its length and pass it unchanged. |
| HopTypes.AddressTailAccepts | lib/hop/types/string.js:14-25 | `min`, `max`, `email`, `required` pass an address of fitting length unchanged. |
| HopTypes.AddressTailRejectsText | lib/hop/types/string.js:22-25 | The same tail refuses text that is not an address. |
| HopTypes.AddressTailRejectsLength | lib/hop/types/string.js:14-21 | The same tail refuses an address whose length is out of bounds. |
| HopTypes.AddressChainAccepts | lib/hop/types/string.test.js:29-33 | `string().min(lo).max(hi).trim().email().required()` accepts exactly strings whose trim is an address within the bounds, and yields the trim. |
| HopTypes.StringChainExample | lib/hop/types/string.test.js:29-33 | That chain with bounds 3 and 15 turns `' john@mail.com '` into `'john@mail.com'`. |
| HopTypes.NumberChainExample | lib/hop/types/number.test.js:35 | `number().min(3).max(5).default(4).required()` turns missing data into 4. |
| HopTypes.NumberBoundsExample | lib/hop/types/number.test.js:13-18 | `number().min(4)` rejects 3 and `number().max(5)` rejects 6, with the messages naming the bound. |
| HopValidate.ValidateWithHop | lib/hop/validate.js:22-37 | No error exactly when the rules pass, and then the rules' output; otherwise the input itself with one detail naming the field, the message and the input. |
| HopValidate.ValidateWithObjectOfHopSchema | lib/hop/validate.js:47-62 | The loop over the schema keys computes the per-field outcome. |
| HopValidate.FieldOutcomesKeys | lib/hop/validate.js:52-58 | The validated object has exactly the schema's keys. |
| HopValidate.FieldOutcomesValue | lib/hop/validate.js:52-58 | Each field holds its rules' output when they pass and the field's input when they throw. |
| HopValidate.EntryDetail | lib/hop/validate.js:22-37 | The detail reported for a field is its failing-entry detail. |
| HopValidate.DetailsAreFailures | lib/hop/validate.js:52-58 | The details collected are exactly those of the failing fields, in key order. |
| HopValidate.NoDetailsIffAllPass | lib/hop/validate.js:59-61 | There are no details exactly when every field passes. |
| HopValidate.ObjectOutcomeFacts | lib/hop/validate.js:47-62 | Throws only when a field is read from undefined or null; otherwise gives an object with the schema's keys, and an error exactly when some field failed, carrying the failing details in order. |
| HopValidate.ValidateWithHopSchema | lib/hop/validate.js:72-79 | No error exactly when the rules pass; otherwise a single detail; a falsy output falls back to the input. |
| HopValidate.ValidateFacts | lib/hop/validate.js:98-100 | A single hop type never throws and reports at most one detail; an object schema throws only on undefined or null data; every error is a `Validation Error` with at least one detail. |
| AppErrors.CustomErrorOptions | lib/error/index.js:19-27 | The name and code default to `CustomError` and `CUSTOM_ERROR` exactly when left out, and the error carries no details. |
| AppErrors.DetailsSchema | lib/error/index.js:5-9 | The hop builders produce the details schema: required `message` and `field` strings, and a `value` string defaulting to `''`. |
| AppErrors.RequiredTextRun | lib/error/index.js:6-7 | `string().required()` accepts exactly non-empty strings and keeps them. |
| AppErrors.TextOrEmptyRun | lib/error/index.js:8 | `string().default('')` accepts exactly strings and falsy values, and turns a falsy value into `''`. |
| AppErrors.DetailPasses | lib/error/index.js:5-9 | Each field of the details schema accepts exactly what a well-formed detail has under that key. |
| AppErrors.CheckDetailAccepts | lib/error/index.js:36-41 | A detail passes exactly when it is well formed; undefined or null throws a TypeError; any other bad detail throws the hop `Validation Error`. |
| AppErrors.CheckDetailNormalises | lib/error/index.js:36-41 | A passing detail comes back as exactly its message, its field and its value, or `''` for a falsy value. |
| AppErrors.EnsureDetailsMaps | lib/error/index.js:35-43 | Succeeds exactly when every detail passes, and then replaces each detail in place by its normalised form. |
| AppErrors.EnsureDetailsThrowsFirst | lib/error/index.js:35-43 | On failure, the error thrown is that of the first failing detail. |
| AppErrors.ValidationErrorSpec | lib/error/index.js:52-57 | Succeeds exactly when the details are left out or are an array of acceptable details; the error is then `ValidationError` with code `VALIDATION_ERROR` and the normalised details in order. `null` details throw `Cannot read property 'map' of null`, and any other non-array throws `details.map is not a function`. |
| AppErrors.BadDetailThrowsValidationError | lib/error/index.test.js:74-83 | An array with a detail lacking a message or a field throws the hop `Validation Error`. |
| Fs.ChildrenMembers | lib/db/file-util.js:30 | `readdir` lists exactly the entries one level down. |
| Fs.MkdirKeepsValid | lib/db/file-util.js:20 | `mkdir` keeps the file system a tree, and succeeds exactly on an absent, unlocked path whose parent is a directory. |
| Fs.RmdirKeepsValid | lib/db/file-util.js:42 | `rmdir` keeps the file system a tree. |
| Fs.UnlinkKeepsValid | lib/db/file-util.js:87 | `unlink` keeps the file system a tree. |
| Fs.WriteFileKeepsValid | lib/db/file-util.js:72 | `writeFile` keeps the file system a tree. |
| Fs.OpenKeepsValid | lib/db/file-util.js:55 | `open` keeps the file system a tree. |
| Fs.WriteThenRead | lib/db/file-util.js:72-80 | After a successful write, no directory changes and only the written file does. A read returns what was written, except after an `r+` write of text shorter than the file's: the file then keeps its old length and no longer parses. |
| Fs.Overwrite | lib/db/file-util.js:72 | A write that does not truncate leaves the file as long as the longer of the two texts; it holds the new content exactly when that is no shorter, and otherwise does not parse. |
| Fs.WriteFileFailure | lib/db/file-util.js:72 | A failed write changes nothing; `wx` fails exactly on an existing path, an unwritable path or a missing parent; `r+` succeeds exactly on an existing writable file. |
| Fs.UnlinkThenRead | lib/db/file-util.js:80-87 | `unlink` succeeds exactly on an existing unlocked file; a later read finds nothing; a failed unlink changes nothing. |
| Fs.OpenForReading | lib/db/file-util.js:55 | Opening with `r` or `r+` changes nothing, and succeeds only on an existing entry. |
| FileUtil.CreateDirectory | lib/db/file-util.js:20 | `mkdir` with every failure swallowed. |
| FileUtil.OpenFile | lib/db/file-util.js:55 | `open` with mode `r` by default; a failure is passed on. |
| FileUtil.WriteFile | lib/db/file-util.js:72 | `writeFile` with flag `w` by default; a failure is passed on. |
| FileUtil.ReadFile | lib/db/file-util.js:80 | The file's contents, or the read failure. |
| FileUtil.DeleteFile | lib/db/file-util.js:87 | `unlink`, or its failure. |
| FileUtil.ListDirectory | lib/db/file-util.js:30 | `readdir` lists each child once, in some order, or passes on the failure. |
| FileUtil.RemoveDirectory | lib/db/file-util.js:28-46 | Keeps the tree valid, removes only entries at or below the directory, and removes all of them when none is locked. |
| Db.DocumentLocation | lib/db/index.js:12-27 | The database is `<cwd>/<name>`, or `<cwd>/.data` without a name or with an empty one; a document is `<db>/<collection>/<id>.json`. |
| Db.CreateStores | lib/db/index.js:49-57 | When the collection can be set up and the document is absent, `create` stores the JSON form of `data`, changes no other file, and returns `data` with `_id` set. |
| Db.CreateThenGet | lib/db/index.js:49-77 | A clean object that `create` stores is what a following `get` returns, and what `create` returned. |
| Db.CreateIsExclusive | lib/db/index.js:53-54 | `create` on an existing document rejects with `EEXIST` and changes nothing. |
| Db.GetNull | lib/db/index.js:65-77 | A missing, unreadable or unparsable document reads as `null`. |
| Db.GetStored | lib/db/index.js:71 | An object-typed stored value comes back with `_id` set to the id over its own entries; any other value comes back as is. |
| Db.UpdateMissing | lib/db/index.js:105-109 | A document that `get` finds falsy makes `update` reject with `Document (<id>) does not exist` and write nothing. |
| Db.UpdateMerges | lib/db/index.js:111-115 | Object data over a stored object: the data's keys win, the other stored keys stay, `_id` is the id unless the data sets one; the merge is written over the file with `r+` and returned with `_id`. |
| Db.UpdateReplaces | lib/db/index.js:111-115 | A non-object document or non-object data makes `update` write the data itself over the file with `r+`, and return it. |
| Db.UpdateThenGet | lib/db/index.js:104-116 | After `update` of an object, `get` finds the merge with `_id` when its text is no shorter than the file's; when it is shorter, `get` yields `null` and a further `update` rejects as missing. |
| Db.GetOfContent | lib/db/index.js:65-77 | `get` reads unparsable text as `null` and an object as itself with `_id`. |
| Db.UpdateShrinkLosesDocument | lib/db/index.js:111-115 | Updating a stored document's string field with shorter text resolves with the merged document, yet leaves a file that `get` reads as `null` and that a further `update` reports missing. |
| Db.ShorterMerge | lib/db/index.js:111-113 | That merge is clean, already carries its `_id`, and its text is shorter than the stored one. |
| JsonText.SumTakesOut | lib/db/index.js:113 | The size of an object's text does not depend on the order its entries are added up in. |
| JsonText.SumReplaces | lib/db/index.js:113 | Replacing one entry changes the total size by the difference. |
| JsonText.ShorterField | lib/db/index.js:113 | Giving a string field other text changes the object's text by exactly the difference in the two strings' sizes. |
| Db.UpdateFalsyDocument | lib/db/index.js:71-108 | A stored `0`, `false` or `''` makes `update` reject as missing, while a stored `null` reads as `{_id}`. |
| Db.DeleteThenGet | lib/db/index.js:84-94 | `delete` answers whether the file was there to remove; afterwards `get` gives `null`; a failed delete changes nothing. |
| Db.Database.constructor | lib/db/index.js:9 | The database name starts out unset. |
| Db.Database.InitDb | lib/db/index.js:124-127 | Stores the name (`.data` by default) and makes the database directory, swallowing failures. |
| Db.Collection.Create | lib/db/index.js:49-57 | Carries out `create` on the disk. |
| Db.Collection.Get | lib/db/index.js:65-77 | Carries out `get` on the disk. |
| Db.Collection.Delete | lib/db/index.js:84-94 | Carries out `delete` on the disk. |
| Db.Collection.Update | lib/db/index.js:104-116 | Carries out `update` on the disk. |
| UserModel.UserIdFromEmail | models/user/index.js:11 | The id has no `@` or `.`, is no longer than the email, and is strictly shorter when the email has either. |
| UserModel.UserIdAppend | models/user/index.js:11 | The id of a concatenation is the concatenation of the ids, so the other characters keep their order. |
| UserModel.UserIdKeepsPlainText | models/user/index.js:11 | Text without `@` or `.` is its own id. |
| UserModel.UserIdIdempotent | models/user/index.js:11 | Deriving an id from an id changes nothing. |
| UserModel.ValidateOrThrowFacts | models/user/index.js:17-25 | The validated value is an object with exactly the schema's fields when every field passes; otherwise the `Validation Error` is thrown, or a TypeError for undefined or null details. |
| UserModel.RemoveUndefinedProps | models/user/index.js:30-40 | The loop copies exactly the entries whose value is not undefined. |
| UserModel.CreateRejectsFirst | models/user/index.js:48-52 | Details the create schema rejects throw before the store is touched. |
| UserModel.CreateStoresUnderEmailId | models/user/index.js:48-52 | Accepted details are stored under the id derived from the email and come back with that `_id`. |
| UserModel.UpdateKeepsUnsupplied | models/user/index.js:61-64 | A stored field the details leave undefined keeps its value, and a supplied one takes the new value, in what is written over the file and what is returned. |
| UserModel.Users.Create | models/user/index.js:48-52 | Carries out `create` on the `users` collection. |
| UserModel.Users.Update | models/user/index.js:61-64 | Carries out `update` on the `users` collection. |
| UserModel.Users.Get | models/user/index.js:72-74 | Reads the user from the `users` collection. |
| UserModel.Users.Remove | models/user/index.js:82-84 | Deletes the user from the `users` collection. |
| TestApp.App.constructor | lib/aladdin/runner/test-app.js:12-27 | A new app has no tests and no hooks. |
| TestApp.App.QueueTest | lib/aladdin/runner/test-app.js:29 | Appends the test, returns the new length, and leaves the hooks alone. |
| TestApp.App.PopTest | lib/aladdin/runner/test-app.js:34 | Takes the oldest test off the front, or gives nothing on an empty queue. |
| TestApp.App.GetTests | lib/aladdin/runner/test-app.js:39 | Returns a fresh copy of the queue. |
| TestApp.App.GetNumTests | lib/aladdin/runner/test-app.js:44 | Returns the queue's length. |
| TestApp.App.QueueBeforeAllHook | lib/aladdin/runner/test-app.js:50 | Appends to `beforeAll` only. |
| TestApp.App.QueueBeforeEachHook | lib/aladdin/runner/test-app.js:56 | Appends to `beforeEach` only. |
| TestApp.App.QueueAfterAllHook | lib/aladdin/runner/test-app.js:62 | Appends to `afterAll` only. |
| TestApp.App.QueueAfterEachHook | lib/aladdin/runner/test-app.js:68 | Appends to `afterEach` only. |
| TestApp.App.GetBeforeAllHooks | lib/aladdin/runner/test-app.js:73 | Returns a fresh copy of `beforeAll`. |
| TestApp.App.GetBeforeEachHooks | lib/aladdin/runner/test-app.js:78 | Returns a fresh copy of `beforeEach`. |
| TestApp.App.GetAfterAllHooks | lib/aladdin/runner/test-app.js:83 | Returns a fresh copy of `afterAll`. |
| TestApp.App.GetAfterEachHooks | lib/aladdin/runner/test-app.js:88 | Returns a fresh copy of `afterEach`. |
| TestApp.App.ResetBeforeAfterHooks | lib/aladdin/runner/test-app.js:92-97 | Empties the four hook lists and keeps the queue. |
| TestApp.QueueThenPop | lib/aladdin/runner/test-app.js:29-35 | The queue is first in, first out: after queueing behind a non-empty queue, a pop takes the old front and the new test is last. |
| TestApp.CopyIsDetached | lib/aladdin/runner/test-app.js:39 | Writing into the copy `getTests` returns leaves the queue as it was. |
| Runnable.Reverse | lib/aladdin/runner/runnable.js:53 | Element `i` of the result is element `length - 1 - i` of the input. |
| Runnable.RunHooksPrefix | lib/aladdin/runner/runnable.js:19-21 | The hooks run are a prefix of the list, in order, and all of them when none throws. |
| Runnable.RunHooksFailure | lib/aladdin/runner/runnable.js:19-21 | In one round, every hook before the last one run returned; when the run rejects, the last one run threw in that round. |
| Runnable.RunHooksSpec | lib/aladdin/runner/runnable.js:16-22 | The hooks run in order up to the first that throws in that round; the run completes exactly when none throws in it. |
| Runnable.RunHooksStops | lib/aladdin/runner/runnable.js:19-21 | Once a prefix has thrown, no later hook runs. |
| Runnable.RunForward | lib/aladdin/runner/runnable.js:36-38 | The counting-up loop runs the hooks first to last as `RunHooks` describes. |
| Runnable.RunBackward | lib/aladdin/runner/runnable.js:53-55 | The counting-down loop runs the hooks last to first. |
| Runnable.RunBeforeAllHooks | lib/aladdin/runner/runnable.js:12-23 | Runs the app's `beforeAll` hooks in queue order. |
| Runnable.RunBeforeEachHooks | lib/aladdin/runner/runnable.js:29-40 | Runs the app's `beforeEach` hooks in queue order, for the test at the given position. |
| Runnable.RunAfterAllHooks | lib/aladdin/runner/runnable.js:46-57 | Runs the app's `afterAll` hooks in reverse order. |
| Runnable.RunAfterEachHooks | lib/aladdin/runner/runnable.js:63-74 | Runs the app's `afterEach` hooks in reverse order, for the test at the given position. |
| Runnable.RunTest | lib/aladdin/runner/runnable.js:121-133 | Runs the test at the given position on the app's hooks as `TestRun` describes. |
| Runnable.ReverseAllPass | lib/aladdin/runner/runnable.js:53 | Reversing the hooks does not change whether any of them throws in a round. |
| Runnable.TestRunAllPass | lib/aladdin/runner/runnable.js:121-133 | When nothing throws: the `beforeEach` hooks in order, the callback, a pass, then the `afterEach` hooks last to first. |
| Runnable.TestRunBeforeEachFails | lib/aladdin/runner/runnable.js:124-132 | A throwing `beforeEach` hook skips the callback and the test is reported failed, but the `afterEach` hooks still run. |
| Runnable.TestRunCallbackFails | lib/aladdin/runner/runnable.js:124-132 | A throwing callback is reported failed and the `afterEach` hooks still run. |
| Runnable.TestRunGoesOn | lib/aladdin/runner/runnable.js:132 | A test rejects exactly when one of its own `afterEach` invocations throws. |
| Runnable.RunQueuedStops | lib/aladdin/runner/runnable.js:154-156 | Once a test has rejected, no later test runs. |
| Runnable.RunQueuedSpec | lib/aladdin/runner/runnable.js:153-156 | The run completes exactly when no test's `afterEach` hooks throw, and then takes every test; otherwise it takes the tests up to and including the first whose `afterEach` hooks threw, so the count popped is that test's position plus one. |
| Runnable.RunQueuedAllPass | lib/aladdin/runner/runnable.js:153-156 | When nothing invoked for any test throws, the trace is each test's sequence in queue order. |
| Runnable.RunQueuedFirstRejects | lib/aladdin/runner/runnable.js:155 | When the `afterEach` hooks first throw for the test at position `k`, the run is the run of the tests before it followed by that test's sequence, takes `k + 1` tests, and rejects. |
| Runnable.RunSuite | lib/aladdin/runner/runnable.js:150-159 | A run never takes more tests than were queued. |
| Runnable.RunQueue | lib/aladdin/runner/runnable.js:153-156 | The loop pops and runs the tests as `RunQueued` describes, and leaves exactly the unpopped tests queued. |
| Runnable.RunTests | lib/aladdin/runner/runnable.js:140-160 | The runner on the app behaves as `RunSuite`, leaves the hooks alone, and leaves exactly the tests it did not pop. |
| Runnable.RunSuiteAllPass | lib/aladdin/runner/runnable.js:150-159 | When nothing throws: `beforeAll` in order, every test in queue order, `afterAll` last to first; the run completes and empties the queue. |
| Runnable.RunSuiteBeforeAllFails | lib/aladdin/runner/runnable.js:151 | A throwing `beforeAll` hook rejects the run before any test is popped. |
| Runnable.RunSuiteAfterEachFails | lib/aladdin/runner/runnable.js:155 | When the `afterEach` hooks first throw for the test at position `k`, the run rejects after `beforeAll`, the tests before it and that test, having taken `k + 1` tests; `afterAll` never runs. |
| Runnable.RunSuiteRunsAll | lib/aladdin/runner/runnable.js:153-158 | When `beforeAll` passes and no test's `afterEach` hooks throw, every queued test runs, failing callbacks included, and the run completes exactly when no `afterAll` hook throws. |

## Left out

- Concurrency and promises. Every `async` operation is a step that completes before the next. The `Promise.all` in `removeDirectory` (lib/db/file-util.js:32-40) is modelled as visiting the children one after another. Interleavings are not modelled.
- The file system is abstract. Paths are segment lists, with no normalisation of `..` or separators. Permission and other I/O failures are the `locked` path set. `readdir` order is unspecified. `unlink` on a directory gives `EISDIR`.
- `Fs.Overwrite`: an `r+` write of shorter text is taken as leaving a file that does not parse, as it does for JSON text written over JSON text. The exact bytes of the tail are not kept, so the model does not capture that a shorter number written over a longer number's text can still parse, as a different number. File sizes use the number text of `Json.NumberText`.
- A top-level `undefined` passed to `create` or `update` is stored as content that does not parse. Object key order is not kept, for stored documents or for spread results.
- `closeFile` (lib/db/file-util.js:62) is left out, since nothing in the store calls it. `getAll`, which `userModel.list` (models/user/index.js:90-92) calls, is not defined by `createModel`, so `list` is left out. lib/db/errors.js is not part of this model.
- Debug logging (`debuglog`), `console` output with its colours, and `Error.captureStackTrace` are left out.
- `process.cwd()` and the module-level `databaseName` are fields of `Db.Database`.
- Numbers are real numbers. Number text is limited to plain decimals: a sign, digits and at most one point. Exponents, hex, `Infinity` and NaN are not modelled, in reading text or in writing it: a whole number of 1e21 or more is written in exponent form by `String(n)`, so `parseInt` reads only its leading digit and `isInteger` is false for it, and a message naming such a bound prints it as `1e+21`; the model takes such a number as whole and writes it in plain digits. `Number` of an array goes through its text, joined with commas, so `[]`, `[null]` and `['5']` are numbers and two or more items are not. `Number` of an object is NaN; a `toString` or `valueOf` of the object's own is not modelled. `String(n)` of a fraction is written with at most 20 digits, not with JavaScript's shortest round-trip form.
- Object construction in lib/hop/types/create-type.js, lib/hop/index.js and lib/hop/types/index.js is left out. So are the `{...baseObj}` spreads at lib/hop/types/string.js:10-12 and number.js:10-12. As written, the spreads copy only own enumerable properties, so the string and number types lose the base methods (`required`, `default`, `allowed`, `disallowed`, `validate`) and the `isHop` marker. The model gives every type the base methods and the marker, as the tests of those files expect.
- Each rule takes one options object `{data, field, flags}`, as its doc comment describes. lib/hop/types/base.js:46 instead calls `test.cb(dataToValidate, field)`. The model follows the rules' own convention: each rule gets the data, the field and the flags. No builder ever sets `flags.optional`, so `validate` runs the rules with it unset.
- Values are compared by structure. `includes` in `valid` and `invalid` compares objects and arrays by reference, which the model does not capture.
- The user schemas of models/user/validation-rules.js and roles.js are not part of this model. They are parameters (`createRules`, `updateRules`) of `UserModel.Users`, and every schema entry is a hop type.
- `Json.OwnEntries` spreads a string one entry per character. JavaScript spreads it per UTF-16 code unit, so an astral character gives two entries, each a lone surrogate; Dafny strings cannot hold lone surrogates, so the model gives one entry for it.
- `HopValidate.Member` reads only an object's own fields. Inherited properties, such as `length` of a string, are not modelled, and neither are the index properties `"0"`, `"1"`, … of arrays and strings: reading them gives undefined in the model.
- `HopRules.Length` gives no length for an object, even one with its own `length` field, which the source would read.
- `customError` with a non-string message is not modelled: the message is a string or absent.
- Callbacks are opaque ids. Whether an invocation throws is fixed by the `fails` set, per callback and round: a round is `beforeAll`, the test at one position, or `afterAll`. A callback listed twice in one round's hooks throws both times or neither. Callbacks cannot queue tests or change the app while the runner is running.
- `UserModel.Users.Create` and `UserModel.Users.Update`: validation throws synchronously in the source, before any promise exists. The model reports it as the `Err` result of the same call.
- The aladdin loader, lib/aladdin/runner/index.js, suite.js and lib/aladdin/index.js are not part of this model.
