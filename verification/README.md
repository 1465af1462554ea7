# Truck weigh-in records, modelled in Dafny

This project models the logic of a small truck weigh-station application. A driver
fills in a form (company, driver name, phone number, weight, an optional photo, and
the weigh station's location from the query string). The record is sent over an RPC
router to a PostgreSQL table `vehicle_logs`. An admin page lists the newest records,
filters them by a search term and a date, and shows how many are left. Companies live
in a second table, `companies`.

What is modelled:

- **Schema** (`schema.dfy`): the two tables as datatypes, with their constraints.
  - primary keys;
  - the unique company name;
  - NOT NULL everywhere except `photo_url`;
  - `decimal(10,2)` weights, held as integer hundredths.

  A row takes two JavaScript shapes. Keyed by SQL column name, it is what the `pg`
  driver hands back. Keyed by property name, it is what drizzle hands back.
- **Numbers** (`decimal.dfy`): numbers with at most two fraction digits. This file has:
  - JavaScript's `toString`;
  - PostgreSQL's `numeric` output;
  - a parser for `numeric` input;
  - round trips between them.
- **Queries** (`queries.dfy`): the SQL clauses as list operations.
  - `ORDER BY created_at DESC` and `ORDER BY name` are insertion sorts, with
    sortedness and permutation proved.
  - `WHERE is_active = true` is a filter.
  - `LIMIT … OFFSET …` is a slice.
- **The data-access layer `dbRaw`** (`db_raw.dfy`): a `Database` object that holds
  both tables, a fresh-id supply, a clock that ticks on every insert, and an optional
  connection outage. It runs the four statements. The inserts are methods that
  append a row. The reads are functions, so they change nothing.
- **RPC input validation** (`rpc_input.dfy`): the zod object schemas as a list of
  fields with checks. The issues come out in field order.
- **The mounted `weighing` router** (`weighing_router.dfy`) and the parallel
  **`weighing-raw` router** (`weighing_raw_router.dfy`), including `testConnection`.
- **The client pages**:
  - the form schema and location fallback they share (`form_schema.dfy`);
  - the weighing page with its submit, reset and cancel state (`weighing_page.dfy`);
  - the home page with its fixed company list (`home_page.dfy`);
  - the admin page with its filter, count and list query (`admin_page.dfy`).

Parameters replace I/O:

- The database connection is the `outage` field: `None` means connected, and
  `Some(message)` means every statement fails with that message.
- The time of a home-page submission is a string parameter.
- The admin page's ISO date rendering (`toISOString`) is a function parameter `iso`.

## Model

| member | source | states |
|---|---|---|
| Schema.OnlyPhotoUrlNullable | packages/db/src/schema/vehicle-logs.ts:4-13 | in a stored row only `photo_url` can be NULL, and it is NULL exactly when no photo URL was given |
| Schema.DecodeLogRecord | packages/db/src/schema/vehicle-logs.ts:4-13 | a record keyed by property names carries every column value unchanged: reading it back gives the row |
| Schema.DecodeCompanyRecord | packages/db/src/schema/vehicle-logs.ts:16-21 | the same for a `companies` row |
| Schema.ToLogRecordOfRow | packages/db/src/schema/vehicle-logs.ts:4-13 | renaming a row's column names (`driver_name`, `phone_number`, `photo_url`, `created_at`) to the declared property names gives the drizzle record |
| Schema.ToLogRowOfRecord | packages/db/src/schema/vehicle-logs.ts:4-13 | renaming back gives the row keyed by column names |
| Schema.ToCompanyRecordOfRow | packages/db/src/schema/vehicle-logs.ts:16-21 | `is_active`/`created_at` renamed to `isActive`/`createdAt` gives the drizzle record |
| Schema.ToCompanyRowOfRecord | packages/db/src/schema/vehicle-logs.ts:16-21 | and renaming back gives the row |
| Schema.LogRenameRoundTrip | packages/db/src/schema/vehicle-logs.ts:4-13 | any object keyed by `vehicle_logs` column names survives column→property→column renaming unchanged |
| Schema.LogNamesInverse | packages/db/src/schema/vehicle-logs.ts:4-13 | the column-name map and the property-name map invert each other |
| Schema.RawLogRowMissesDeclaredFields | packages/api/src/lib/db-raw.ts:9-18 | a row as the driver returns it has no `driverName`, `phoneNumber`, `photoUrl` or `createdAt` property, so it is not a `VehicleLog` as declared |
| Schema.RawCompanyRowMissesDeclaredFields | packages/api/src/lib/db-raw.ts:20-25 | a company row has no `isActive` or `createdAt` property, so it is not a `Company` as declared |
| Decimal.NumericText | packages/db/src/schema/vehicle-logs.ts:10 | PostgreSQL's text for a `decimal(10,2)`: always a point followed by exactly two digits, and a leading `-` exactly for a negative value |
| Decimal.NumberText | packages/api/src/routers/weighing.ts:26 | `toString`: a leading `-` exactly for a negative number, a point exactly when the number is not whole, and then no trailing zero |
| Decimal.ParseNumeric | packages/api/src/lib/db-raw.ts:42 | accepted text starts with `-` or a digit; a negative value only comes from a leading `-`, and a leading `-` never gives a positive value |
| Text.Lower | apps/web/src/app/admin/page.tsx:28-30 | `toLowerCase` on ASCII: same length, every capital `A`…`Z` becomes its own lower-case letter, every other character unchanged, so no capital is left |
| Decimal.NumericTextRoundTrip | packages/db/src/schema/vehicle-logs.ts:10 | the text PostgreSQL gives for a stored `decimal(10,2)` (two fraction digits) parses back to the same value |
| Decimal.NumberTextRoundTrip | packages/api/src/routers/weighing.ts:26 | the text `weight.toString()` gives parses as `numeric` back to the same number |
| Base.Filter | apps/web/src/app/admin/page.tsx:21 | `Array.prototype.filter`: the result holds exactly the elements that satisfy the predicate, each as many times as the input holds it, as a subsequence in the original order |
| Text.Includes | apps/web/src/app/admin/page.tsx:28-30 | `String.prototype.includes`: true exactly when the pattern occurs at some position |
| Text.BeforeFirst | apps/web/src/app/admin/page.tsx:33 | `split('T')[0]`: the longest prefix without the separator, which is followed by the separator or ends the text |
| Queries.InsertByTime | packages/api/src/lib/db-raw.ts:51 | inserting into a newest-first list keeps it newest-first and adds exactly that row |
| Queries.NewestFirst | packages/api/src/lib/db-raw.ts:51 | `ORDER BY created_at DESC`: the result has non-increasing `createdAt` and is a permutation of the table |
| Queries.NewestFirstAppend | packages/api/src/lib/db-raw.ts:51 | a row newer than every stored row comes first in the newest-first order, ahead of all the others in their order |
| Queries.NewestFirstIsReverse | packages/api/src/lib/db-raw.ts:51 | on a table in insertion order with a ticking clock, newest first is the reverse of insertion order |
| Queries.InsertByName | packages/api/src/lib/db-raw.ts:63 | inserting into a list sorted by name keeps it sorted and adds exactly that row |
| Queries.ByName | packages/api/src/lib/db-raw.ts:63 | `ORDER BY name`: the result is ascending by name and is a permutation of the input |
| Queries.ActiveOnly | packages/api/src/lib/db-raw.ts:62 | `WHERE is_active = true`: exactly the active rows, each as many times as the table holds it (an inactive row zero times), as a subsequence of the table |
| Queries.ActiveByName | packages/api/src/lib/db-raw.ts:60-63 | the active rows sorted by name: ascending, a permutation of the active rows, and holding exactly the active rows |
| Queries.Page | packages/api/src/lib/db-raw.ts:52 | `LIMIT l OFFSET o`: `min(l, max(0, n - o))` rows, row `i` being row `o + i`; past the end it is empty |
| Queries.PageNewestFirst | packages/api/src/lib/db-raw.ts:50-52 | a page of a newest-first listing is newest first |
| DbRaw.Message | packages/api/src/routers/weighing-raw.ts:17-24 | a failed connection's message is its reason; every server error has a non-empty message, and the invalid-input, out-of-range and unique-violation messages quote the offending text or constraint |
| DbRaw.ErrorString | packages/api/src/routers/weighing-raw.ts:17-24 | `String(error)`: a seven-character name prefix then the message, the prefix starting with `E` exactly for a failed connection (`Error: `) and `e` for the driver's database errors (`error: `) |
| DbRaw.LogInsertError | packages/api/src/lib/db-raw.ts:38-44 | the insert succeeds exactly when connected with a weight that parses and fits `decimal(10,2)`; a lost connection is reported first, otherwise the failure is the invalid text or the overflow |
| DbRaw.CompanyInsertError | packages/api/src/lib/db-raw.ts:71-75 | the insert succeeds exactly when connected and no stored company has the name; a lost connection is reported first, otherwise the failure is the unique violation on `companies_name_unique` |
| DbRaw.AppendLogOk | packages/api/src/lib/db-raw.ts:38-44 | appending a row with a fresh id, an in-range weight and the current time keeps every table constraint and the insertion order |
| DbRaw.AppendCompanyOk | packages/api/src/lib/db-raw.ts:71-75 | appending a company with a fresh id and a name not yet taken keeps unique ids and unique names |
| DbRaw.ActiveNamesDistinct | packages/db/src/schema/vehicle-logs.ts:18 | two positions of the sorted active companies never hold the same name |
| DbRaw.UniqueNamesOnce | packages/db/src/schema/vehicle-logs.ts:18 | in a table with unique names every row occurs at most once |
| DbRaw.Database.constructor | packages/api/src/lib/db-raw.ts:3-6 | opening the store over existing tables: the id supply and the clock start above every stored id and timestamp |
| DbRaw.Database.CreateVehicleLog | packages/api/src/lib/db-raw.ts:30-45 | it fails exactly on a lost connection, a weight that is not a number, or a weight outside `decimal(10,2)`, and then the table is unchanged. Otherwise it appends exactly one row whose six columns equal the input, with a fresh id and the current time. It returns that row keyed by column name, which is now what `LIMIT 1 OFFSET 0` lists. The companies are untouched |
| DbRaw.Database.LatestLogs | packages/api/src/lib/db-raw.ts:49-53 | `min(limit, max(0, n - offset))` rows; row `i` is the one inserted `offset + i` places before the latest. The result is newest first |
| DbRaw.Database.GetVehicleLogs | packages/api/src/lib/db-raw.ts:48-56 | it fails exactly on a lost connection, a fractional parameter (invalid `bigint` text), a whole one outside the `bigint` range (checked for `limit` before `offset`, each reported with its text), or a negative one (a negative `offset` is reported before a negative `limit`). Otherwise it returns the page of `LatestLogs` as column-keyed rows, never more than `limit` of them and never absent; both tables are left unchanged |
| DbRaw.Database.ActiveCompanies | packages/api/src/lib/db-raw.ts:60-63 | exactly the stored active companies, strictly ascending by name, as many as the active rows |
| DbRaw.Database.GetActiveCompanies | packages/api/src/lib/db-raw.ts:59-67 | succeeds exactly when connected, and then returns `ActiveCompanies` as column-keyed rows |
| DbRaw.Database.CreateCompany | packages/api/src/lib/db-raw.ts:70-78 | it fails on a lost connection, or on a name already taken (unique violation), and then the table is unchanged. Otherwise it appends one row with that name, `is_active` true, a fresh id and the current time, and returns it |
| RpcInput.Issues | packages/api/src/routers/weighing.ts:10-18 | a zod object check: a name is an issue exactly when a field of that name fails; no more issues than fields; empty exactly when the input is accepted |
| RpcInput.IssuesInSchemaOrder | packages/api/src/routers/weighing.ts:10-18 | the issues are exactly the names of the failing fields, one per failing field, in schema order |
| WeighingRouter.CreateSchemaMeans | packages/api/src/routers/weighing.ts:10-18 | the `create` schema accepts exactly: four strings, a number `weight`, and optional string `photoUrl` and `notes` |
| WeighingRouter.OnlyWeightRejected | packages/api/src/routers/weighing.ts:15 | an input right in every field but a non-number `weight` is refused with `weight` as its only issue |
| WeighingRouter.ParseCreate | packages/api/src/routers/weighing.ts:10-18 | accepted exactly when the schema is met, then carrying every field as given, the optional `photoUrl` and `notes` included (absent stays absent); otherwise the schema's issues, never empty |
| WeighingRouter.ListSchemaMeans | packages/api/src/routers/weighing.ts:35-40 | the `list` schema accepts exactly an optional number `limit` in [1, 100] and an optional number `offset` ≥ 0 |
| WeighingRouter.ParseList | packages/api/src/routers/weighing.ts:35-40 | it refuses limit < 1, limit > 100 and offset < 0 with the schema's issues. A given value passes unchanged; an omitted limit is 50 and an omitted offset is 0 |
| WeighingRouter.ParseAddCompany | packages/api/src/routers/weighing.ts:66-70 | accepted exactly when `name` is a non-empty string, then that name; otherwise the single issue `name` |
| WeighingRouter.ForwardedLog | packages/api/src/routers/weighing.ts:21-28 | the forwarded weight text reads back as the input number, and the stored row is every input field but `notes`. The insert fails only on a lost connection or an out-of-range weight |
| WeighingRouter.Create | packages/api/src/routers/weighing.ts:8-30 | an input refused by the schema gets its issues and stores nothing. An accepted one stores exactly one row with every field but `notes`, and replies with that row as a record. A lost connection or an out-of-range weight is an internal error that stores nothing |
| WeighingRouter.List | packages/api/src/routers/weighing.ts:33-50 | schema failures give the issues. Otherwise the reply is the newest rows after `offset`, at most `limit` of them, as records; it fails only on a lost connection, a fractional parameter or an `offset` beyond the `bigint` range, and a lost connection gives an internal error carrying the connection's message |
| WeighingRouter.ListDefaults | packages/api/src/routers/weighing.ts:36-37 | with an empty input object, `list` returns the 50 newest rows |
| WeighingRouter.ListNewestFirst | packages/api/src/routers/weighing.ts:42-47 | record `i` of a successful `list` reads back as the row inserted `offset + i` places before the latest |
| WeighingRouter.RecordsDecode | packages/api/src/routers/weighing.ts:42-49 | every listed record reads back as the row it was built from |
| WeighingRouter.GetCompanies | packages/api/src/routers/weighing.ts:53-61 | connected, it returns the active companies ascending by name as records; otherwise an internal error with the connection's message |
| WeighingRouter.CompanyRecordsDecode | packages/api/src/routers/weighing.ts:53-61 | every listed company record reads back as the row it was built from |
| WeighingRouter.GetCompaniesExactlyActive | packages/api/src/routers/weighing.ts:54-58 | a company is listed exactly when it is stored and active |
| WeighingRouter.CompanyRecordIn | packages/api/src/routers/weighing.ts:54-58 | a company's record is among the records built from a list exactly when the company is in the list |
| WeighingRouter.AddCompany | packages/api/src/routers/weighing.ts:64-77 | an empty or missing name is refused with nothing stored. Otherwise it inserts only the name, with `isActive` defaulting to true, and replies with the new record. A taken name or a lost connection is an internal error with the table unchanged |
| WeighingRawRouter.TestConnection | packages/api/src/routers/weighing-raw.ts:6-25 | connected, it reports success with the count of active companies. Otherwise it reports failure with the error's message and its `String` form instead of throwing |
| WeighingRawRouter.Create | packages/api/src/routers/weighing-raw.ts:28-52 | the same validation. The insert gets every field but `notes`, with the weight as text, and the reply is the stored row keyed by column name |
| WeighingRawRouter.List | packages/api/src/routers/weighing-raw.ts:55-65 | the same bounds and defaults; `limit` and `offset` reach `getVehicleLogs` unchanged, so it succeeds exactly when connected with whole parameters inside the `bigint` range, and the reply is its column-keyed rows. A lost connection gives an internal error carrying the connection's message |
| WeighingRawRouter.GetCompanies | packages/api/src/routers/weighing-raw.ts:68-71 | the active companies ascending by name, as column-keyed rows |
| WeighingRawRouter.AddCompany | packages/api/src/routers/weighing-raw.ts:74-83 | an empty name is refused before any storage call (nothing changes, not even the id supply); otherwise `createCompany` is called with the name |
| WeighingRawRouter.RawListRowsDoNotDecode | packages/api/src/lib/db-raw.ts:48-56 | no row of a successful raw `list` is a `VehicleLog` as declared |
| WeighingRawRouter.RawCompanyRowsDoNotDecode | packages/api/src/lib/db-raw.ts:59-67 | no row of a successful raw `getCompanies` is a `Company` as declared |
| WeighingRawRouter.DeclaredListIsMounted | packages/api/src/routers/weighing-raw.ts:55-65 | with each row renamed to the declared properties, the raw `list` equals the mounted router's `list` on every input and state |
| WeighingRawRouter.DeclaredListDecodes | packages/api/src/routers/weighing-raw.ts:55-65 | renamed, the raw `list` rows read back as the stored rows, newest first |
| WeighingRawRouter.DeclaredCompaniesIsMounted | packages/api/src/routers/weighing-raw.ts:68-71 | renamed, the raw `getCompanies` equals the mounted router's |
| WeighingRawRouter.DeclaredCompaniesDecode | packages/api/src/routers/weighing-raw.ts:68-71 | renamed, some raw company row reads back as a company exactly when it is stored and active |
| FormSchema.Validate | apps/web/src/app/weighing/page.tsx:31-38 | no issue exactly when company, driver name and weight are non-empty and the phone number has at least 10 characters. Each field's message is present exactly when that field fails; notes are free |
| FormSchema.BlankFailsEveryRequiredField | apps/web/src/app/weighing/page.tsx:78-87 | the default (blank) form fails all four required fields |
| FormSchema.LocationOrDefault | apps/web/src/app/weighing/page.tsx:41-48 | the `location` parameter when present and non-empty, otherwise the fallback; never empty |
| WeighingPage.CompanyOptions | apps/web/src/app/weighing/page.tsx:138-142 | one option per returned company, in order, with value and label both the company's name |
| WeighingPage.OptionsOfActiveCompanies | apps/web/src/app/weighing/page.tsx:138-142 | over `getCompanies`, one option per active company, every active company offered, no two options with the same value |
| WeighingPage.PayloadAsWritten | apps/web/src/app/weighing/page.tsx:107-114 | the payload the page builds: location and the four fields as strings, the weight as the typed text, `photoUrl` only for a non-empty preview, and no `notes` key |
| WeighingPage.Payload | apps/web/src/app/weighing/page.tsx:107-114 | the corrected payload: the same keys and values as `PayloadAsWritten` except `weight`, which is the typed text read as a number, or `null` when it is not a number |
| WeighingPage.PayloadAsWrittenRejected | apps/web/src/app/weighing/page.tsx:107-114 | the payload as built (weight as the typed text) is refused by `create` for every form, with `weight` as the only issue |
| WeighingPage.PayloadAccepted | apps/web/src/app/weighing/page.tsx:107-114 | with the weight read as a number, `create` accepts the payload. Location and the four form fields arrive unchanged, the photo is the preview or absent, and there are no notes |
| WeighingPage.PayloadWithoutNumberRejected | apps/web/src/app/weighing/page.tsx:107-114 | a weight that is not a number is still refused, with `weight` as the only issue |
| WeighingPage.WeighingForm.constructor | apps/web/src/app/weighing/page.tsx:41-53 | location from the query string or "알 수 없음", a blank form, no preview, not submitting |
| WeighingPage.WeighingForm.Edit | apps/web/src/app/weighing/page.tsx:78-87 | editing replaces the form values and nothing else |
| WeighingPage.WeighingForm.SetPhoto | apps/web/src/app/weighing/page.tsx:90-99 | a loaded photo becomes the preview; nothing else changes |
| WeighingPage.WeighingForm.RemovePhoto | apps/web/src/app/weighing/page.tsx:317 | the delete button clears the preview only |
| WeighingPage.WeighingForm.BeginSubmit | apps/web/src/app/weighing/page.tsx:102-114 | a valid form not already submitting starts submitting and yields `PayloadAsWritten`, the weight as the typed text; otherwise nothing changes |
| WeighingPage.WeighingForm.BeginSubmitParsed | apps/web/src/app/weighing/page.tsx:102-114 | the corrected start: the same, but yielding `Payload`, the weight read as a number |
| WeighingPage.WeighingForm.FinishSubmit | apps/web/src/app/weighing/page.tsx:116-134 | on success the form is reset and the preview cleared; on failure neither. Submitting ends in every case |
| WeighingPage.WeighingForm.Cancel | apps/web/src/app/weighing/page.tsx:365-368 | cancel resets the form and clears the preview |
| WeighingPage.WeighingForm.Submit | apps/web/src/app/weighing/page.tsx:102-135 | an invalid form or one already submitting sends nothing and changes nothing. Every valid form, taken to reach `create`, is refused there with the single issue `weight`: nothing is stored, the values, location and preview are kept, and submitting ends |
| WeighingPage.WeighingForm.SubmitParsed | apps/web/src/app/weighing/page.tsx:102-135 | the corrected submit: an invalid form or one already submitting sends nothing. A valid form whose weight is an in-range number, sent while connected, stores exactly one row equal to the location and the typed fields. The form is then reset, the preview cleared, and submitting ended |
| HomePage.FixedCompaniesShape | apps/web/src/app/page.tsx:139-144 | four fixed options with values `company1`…`company4`, all distinct, each value different from its label |
| HomePage.HomeForm.constructor | apps/web/src/app/page.tsx:40-53 | location from the query string or "1번 계근대", a blank form, no preview, not submitting |
| HomePage.HomeForm.Edit | apps/web/src/app/page.tsx:77-86 | editing replaces the form values and nothing else |
| HomePage.HomeForm.SetPhoto | apps/web/src/app/page.tsx:89-98 | a loaded photo becomes the preview; nothing else changes |
| HomePage.HomeForm.RemovePhoto | apps/web/src/app/page.tsx:307 | the delete button clears the preview only |
| HomePage.HomeForm.Submit | apps/web/src/app/page.tsx:101-136 | no API call. A valid form yields the logged record: location, the form fields, the weight read as a number, the preview, the notes and the time. The form is then reset and the preview cleared, and submitting ends. An invalid form changes nothing |
| HomePage.HomeForm.Cancel | apps/web/src/app/page.tsx:355-358 | cancel resets the form and clears the preview |
| AdminPage.FilterLogs | apps/web/src/app/admin/page.tsx:21-36 | the filter succeeds exactly when the predicate evaluates on every record. The result is then `Filter` of the list by `Keep`: a subsequence, in order, of exactly the records the predicate keeps, each as many times as the list holds it |
| AdminPage.SearchText | apps/web/src/app/admin/page.tsx:23-30 | the empty-string default before `toLowerCase()`: a text field is itself; a missing, null or false value is ""; `true`, a timestamp or a uuid throws |
| AdminPage.DatePart | apps/web/src/app/admin/page.tsx:32-33 | defined exactly when `createdAt` is a timestamp, null or a boolean (null and `false` are the instant 0, `true` the instant 1). It is then the longest `T`-free prefix of the ISO text, followed there by `T` or by its end |
| AdminPage.Keep | apps/web/src/app/admin/page.tsx:23-35 | the predicate throws when the driver name throws, and when a date filter is set but the date throws. A kept record has the lowercased term in one of its three lowercased fields, and its date equals a set date filter |
| AdminPage.EmptyFilterKeepsAll | apps/web/src/app/admin/page.tsx:27-33 | with an empty term and no date, every record is kept |
| AdminPage.KeepMeans | apps/web/src/app/admin/page.tsx:23-35 | on text or missing fields (missing read as ""), a record is kept exactly when the lowercased term occurs in its lowercased driver name, company or location, and the date filter is empty or equals its ISO date |
| AdminPage.SearchIgnoresCase | apps/web/src/app/admin/page.tsx:27-30 | a term and its lowercase decide every record alike |
| AdminPage.ListedRecordsFilter | apps/web/src/app/admin/page.tsx:32-33 | records from the mounted `list` are searchable, and their date is the ISO date of `createdAt`, so the filter never fails on them |
| AdminPage.RawRowsBreakDateFilter | apps/web/src/app/admin/page.tsx:32-33 | column-keyed rows have no `createdAt`: with a date filter set, filtering a non-empty list of them throws |
| AdminPage.AdminPage.constructor | apps/web/src/app/admin/page.tsx:10-12 | empty term, empty date, limit 50 |
| AdminPage.AdminPage.SetSearchTerm | apps/web/src/app/admin/page.tsx:62-67 | typing replaces the search term only |
| AdminPage.AdminPage.SetDateFilter | apps/web/src/app/admin/page.tsx:68-73 | picking a date replaces the date filter only |
| AdminPage.AdminPage.ListQuery | apps/web/src/app/admin/page.tsx:15-18 | the query asks for the current limit at offset 0, and a limit in [1, 100] passes `list`'s schema unchanged |
| AdminPage.AdminPage.Render | apps/web/src/app/admin/page.tsx:79-100 | the count is the number of kept records. The card shows the loading notice exactly while loading, otherwise the empty notice exactly when nothing is kept, and otherwise the kept records |

## Left out

- Floating point. Numbers are exact decimals with at most two fraction digits. This leaves out:
  - `parseFloat` and `toLocaleString`;
  - exponent notation from `toString` for very large or very small numbers;
  - numbers with more fraction digits, which PostgreSQL would round into `decimal(10,2)`.
- Decimal.ParseNumeric: PostgreSQL's `numeric` input also accepts a leading `+`, surrounding spaces, exponents and more fraction digits. The parser accepts only what the code sends it: an optional `-`, digits, and an optional point with one or two digits.
- Lowercasing is ASCII only (`Text.Lower`); Unicode case mapping is not modelled.
- String lengths count characters rather than UTF-16 code units.
- `ORDER BY name` uses code-point order; database collations are not modelled.
- `new Date(...)` parsing of a text `createdAt` is not modelled.
  - The filter reads a timestamp value directly.
  - A missing value throws; `null` and `false` are the instant 0 and `true` the instant 1.
  - The ISO rendering is a parameter.
- AdminPage.SearchText: a timestamp or uuid value under a searched field is treated as a non-string that throws. A missing, null or false value reads as "".
- `testConnection` models only thrown `Error`s. A thrown non-`Error` (which would give "Unknown error") cannot arise from the modelled store.
- Only these database errors are modelled: connection failure, invalid `numeric` or `bigint` text, a `bigint` out of range, numeric overflow, negative `LIMIT`/`OFFSET`, and the unique violation.
- DbRaw.Database.CreateVehicleLog: PostgreSQL refuses a text parameter containing the character U+0000 (`invalid byte sequence for encoding "UTF8": 0x00`). The model accepts every text, so this failure is missing here and in the routers' `create`.
- DbRaw.Database.CreateCompany: the same U+0000 failure is not modelled for the company name, nor in the routers' `addCompany`.
- WeighingPage.WeighingForm.Submit: the model takes `trpc.weighing.create.mutate(...)` (apps/web/src/app/weighing/page.tsx:107) to deliver the payload to `create`, as a vanilla tRPC client's `mutate` would. The `trpc` object is built with `createTRPCReact` (apps/web/src/utils/trpc.ts:2,22), whose procedures expose hooks such as `useQuery` (as at apps/web/src/app/admin/page.tsx:15) rather than `mutate`. Read that way, the call throws on the client before any request is sent. The catch branch then ends in the same state as the modelled refusal: nothing stored, the values and preview kept, and submitting ended.
- The tRPC and react-query client wiring, toasts, JSX rendering, the clock display, the `FileReader` photo loading and the refetch button are not modelled. `apps/web/src/utils/trpc.ts` is read only for the client type noted above; it and `apps/web/src/components/header.tsx` are not part of this model.
- Authentication (`login-form.tsx`, `user-menu.tsx`, the session middleware), `drizzle.config.ts` and `test-db-connection.js` are external I/O and are not part of this model.
- `packages/api/src/routers/index.ts` only composes routers. It mounts `./weighing` (the drizzle router), so the pages are connected to `WeighingRouter`. `healthCheck`, which returns "OK", is not modelled.
- The rows returned by `dbRaw` are modelled as the code produces them. No snake_case to camelCase adapter runs on them, because the code has none. The declared camelCase shape appears only in the corrected members under Findings.
- The admin page's `setLimit` is never called in the code, so the limit stays 50; `ListQuery` covers any limit.
- HomePage.HomeForm.Submit: `parseFloat` of text that is not a decimal number (NaN) is `None`. Text that `parseFloat` would still read a prefix of is also `None`.
- WeighingPage.WeighingForm.SubmitParsed states the stored row only for the connected, in-range case. The other cases follow from `WeighingRouter.Create` and `FinishSubmit`, but are not restated in its contract.
- The database-generated `id` (a random uuid) and `created_at` (now) are a counter and a ticking clock. This is what makes newest-first equal the reverse of insertion order.
- Concurrency between clients and the asynchronous timing of React state updates are not modelled.

## Findings

| source | as written | input that shows it | evidently intended | confidence | as-written member | corrected member |
|---|---|---|---|---|---|---|
| packages/api/src/lib/db-raw.ts:44 | `dbRaw` returns the driver's rows, keyed by column name (`driver_name`, `created_at`, `is_active`), as the declared camelCase `VehicleLog`/`Company` | any stored row listed through the raw `list`: it has no `createdAt`, so the admin page's date filter throws on it | rows renamed to the declared property names, which then equal the mounted router's replies | not executed | WeighingRawRouter.RawListRowsDoNotDecode | WeighingRawRouter.DeclaredListDecodes |
| apps/web/src/app/weighing/page.tsx:112 | the weighing form sends `weight` as the typed text, while `create` declares `weight: z.number()` | any valid form, e.g. weight "12.5": `create` refuses it with the issue `weight` | the text read as a number before sending, and the call made through `useMutation().mutateAsync` or a vanilla tRPC client, so a valid form is stored | not executed | WeighingPage.WeighingForm.Submit | WeighingPage.WeighingForm.SubmitParsed |
