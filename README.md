# Receipt bot: record store and questionnaire, in Dafny

A Telegram bot collects receipts. When a document arrives, the receipt's
check number is accepted at most once. Acceptance opens a three-step
questionnaire: full name, then address, then phone number. Completing it
stores the answers in a record keyed by the check number, together with a
fresh UUID. The `/export` command, which any chat can send, exports every
complete record to a spreadsheet and lists every record's identifier.

This project models the two classes that make those decisions:

- `UserDataStorage`: the set of accepted check numbers and the map from
  check number to record.
- `UpdateController`: message routing and the questionnaire state machine
  (`currentUserCheckNumber`, `currentInputStep`).

Layout:

- `records.dfy`: `Wrappers.Option`; module `Records`, the record types,
  export eligibility (`Complete`), and `Enumerates`. `Enumerates(order, keys)`
  means "`order` is one iteration order of a hash map with key set `keys`".
- `storage_spec.dfy`: module `StorageSpec`, the store's operations as
  functions, with lemmas. It also holds a trace model (`StoreOp`, `RunOps`)
  of every way the store can change.
- `uuid_count.dfy`: module `UuidCount`, `getUUIDCount` as written and as
  intended (see Findings).
- `storage.dfy`: module `Storage`, class `UserDataStorage`. Its methods are
  proved to change `userData` and `uniqueChecks` exactly as `StorageSpec`
  says.
- `controller_spec.dfy`: module `ControllerSpec`, covering routing, the
  questionnaire, one update (`Step`), a whole conversation (`Run`) and the
  identifier listing.
- `controller.dfy`: module `Controller`, class `UpdateController`. Its
  methods are proved to follow `ControllerSpec` and to keep the invariant
  `Inv`.

Modelling choices:

- A document is reduced to the check number it yields, an
  `Option<string>`. That number is handed to `validateAndSaveCheck(String)`.
  The calls `validateAndSaveCheck(update)` and `extractUniqueNumber(update)`
  in `UpdateController.java` do not match any method of
  `UserDataStorage.java`.
- `UUID.randomUUID()` becomes a value supplied by the caller:
  - `freshUid` is the UUID drawn when a questionnaire completes;
  - `newUid(k)` is the UUID drawn for record `k` during `/export`.
- Hash map iteration order is not fixed. Loops over the map pick any
  remaining key. Their results are stated as "there is an iteration
  order `order`, listing every key once, such that the result is F(order)".
- The spreadsheet is a sequence of rows. `Workbook` says what existed before
  an export: no file, a file without the `UserData` sheet, or a sheet with
  rows. `ExportEnv` adds whether an existing file can be read and whether
  the write succeeds; either failure is the `IOException` that
  `exportToExcel` catches, and then nothing is written. Whether the file
  exists when the controller checks for it is the `fileExists` parameter.
- Replies are constructors of `Reply`, not the Russian message texts. The
  one exception is the identifier listing, whose text is modelled exactly.
- `isCheckProcessed` and `getUUIDCount` are the read-only functions
  `UserDataStorage.IsCheckProcessed` and `UserDataStorage.GetUuidCount`.

The bot is meant to accept payments of at least 7900, to read the check
number out of the receipt PDF, to keep one questionnaire per submitter, to
issue one identifier per whole 7900 paid and to keep one spreadsheet row
per record. The code does otherwise, and the model follows the code:

- No minimum-amount check exists anywhere in the code. 7900 appears only
  in `getUUIDCount`.
- Check-number extraction from the PDF is not in the code.
- The session is one global pair of fields, not one session per submitter.
- A completed questionnaire always gets exactly one identifier
  (`ControllerSpec.QuestionnaireCompletes`). Nothing writes `paymentAmount`,
  and nothing calls `getUUIDCount` or `addUUID`, so max(1, amount / 7900)
  identifiers are never issued.
- A second `/export` into an existing file appends every complete record
  again. It does not update rows in place (`StorageSpec.ReexportRepeatsRows`).
- Step 2 of the questionnaire overwrites any existing `uid`. It does not
  append to it.

## Model

| member | source | states |
|---|---|---|
| `StorageSpec.SaveCheck` | dispatcher/src/main/java/ru/relex/utils/UserDataStorage.java:17-23 | Null or already-accepted number: refused, nothing changes. Otherwise the number joins the accepted set and gets an empty record if it has none. Existing records are never replaced. |
| `StorageSpec.SecondSaveRefused` | dispatcher/src/main/java/ru/relex/utils/UserDataStorage.java:17-20 | A second validation of the same number is always refused. |
| `StorageSpec.AcceptedAtMostOnce` | dispatcher/src/main/java/ru/relex/utils/UserDataStorage.java:17-93 | Over any sequence of store operations, including the controller's direct field writes, a number is accepted at most once, and never if it was already accepted. The accepted set and the set of records only grow. |
| `StorageSpec.AssignUids` | dispatcher/src/main/java/ru/relex/utils/UserDataStorage.java:65-72 | Every complete record ends with a `uid`. An existing `uid` is kept. Incomplete records are untouched. No field other than `uid` changes. |
| `StorageSpec.AssignUidsIdempotent` | dispatcher/src/main/java/ru/relex/utils/UserDataStorage.java:65-72 | A second run changes nothing, whatever UUIDs it would draw. |
| `StorageSpec.AddUid` | dispatcher/src/main/java/ru/relex/utils/UserDataStorage.java:82-85 | Creates the record if absent. `uid` becomes the new value if absent, else `old + "," + new`. Other fields and records are unchanged. |
| `StorageSpec.AddUidsJoins` | dispatcher/src/main/java/ru/relex/utils/UserDataStorage.java:82-85 | Repeated calls leave `uid` as the earlier value and every new one, comma-joined in call order. Nothing else changes. |
| `StorageSpec.AddUidsFrame` | dispatcher/src/main/java/ru/relex/utils/UserDataStorage.java:82-85 | Repeated calls create record `k` if needed and change nothing but its `uid` field. |
| `StorageSpec.AddUidsValue` | dispatcher/src/main/java/ru/relex/utils/UserDataStorage.java:82-85 | After repeated calls, `uid` is the earlier value followed by the new ones, comma-joined in call order. |
| `StorageSpec.RowOf` | dispatcher/src/main/java/ru/relex/utils/UserDataStorage.java:46-51 | An export row has five cells and starts with the check number. Columns: number, fio, address, phone, uid (an empty cell if absent). |
| `StorageSpec.RowsOf` | dispatcher/src/main/java/ru/relex/utils/UserDataStorage.java:40-52 | The rows appended for the visited complete records: one per record, in visiting order. |
| `StorageSpec.RowsOfAt` | dispatcher/src/main/java/ru/relex/utils/UserDataStorage.java:39-52 | The i-th new row is the row of the i-th record visited. |
| `StorageSpec.ExportSheet` | dispatcher/src/main/java/ru/relex/utils/UserDataStorage.java:33-52 | The header is written only for a new file. Existing rows are kept as a prefix. After the prefix come exactly the rows of the visited records, in visiting order. |
| `StorageSpec.ExportRowsExactlyComplete` | dispatcher/src/main/java/ru/relex/utils/UserDataStorage.java:40-52 | In any iteration order there is exactly one row per complete record. There are no rows for incomplete records and no duplicate rows. |
| `StorageSpec.ReexportRepeatsRows` | dispatcher/src/main/java/ru/relex/utils/UserDataStorage.java:33-52 | Exporting twice appends each complete record's row a second time after the first export's rows, which are preserved. |
| `UuidCount.NumericValue` | dispatcher/src/main/java/ru/relex/utils/UserDataStorage.java:78 | `Character.getNumericValue`: 0..9 for ASCII and full-width digits, 10..35 for ASCII and full-width Latin letters of either case, -1 for every other character. |
| `UuidCount.CharContribution` | dispatcher/src/main/java/ru/relex/utils/UserDataStorage.java:77-78 | `String.chars()` splits a character outside the Basic Multilingual Plane into two surrogates, each worth -1, so it adds -2. A digit adds its value. In the model every character adds between -2 and 35. |
| `UuidCount.DigitSum` | dispatcher/src/main/java/ru/relex/utils/UserDataStorage.java:75-79 | The sum of the characters' contributions. In the model it lies between -2 and 35 times the string length; Java's larger numeric values (see Left out) are not covered by this bound. |
| `UuidCount.JavaQuotient` | dispatcher/src/main/java/ru/relex/utils/UserDataStorage.java:79 | Java `int / 7900` rounds toward zero, for negative sums too. |
| `UuidCount.CountAsWritten` | dispatcher/src/main/java/ru/relex/utils/UserDataStorage.java:74-80 | At least 1. A digit sum of 7900 or more gives its whole number of 7900s, so a sum of 15800 or more gives more than 1. A smaller sum gives 1. In the model, where no character is worth more than 35, any amount shorter than 452 characters gives 1; in Java a Roman numeral such as U+2188 (worth 100000) breaks that. |
| `UuidCount.UuidCountOf` | dispatcher/src/main/java/ru/relex/utils/UserDataStorage.java:74-80 | At least 1. A missing record or missing amount counts as "0" and gives 1. |
| `UuidCount.DigitSumUndercounts` | dispatcher/src/main/java/ru/relex/utils/UserDataStorage.java:74-80 | Amount "15800": 1 as written, 2 as intended. |
| `UuidCount.CountIntended` | dispatcher/src/main/java/ru/relex/utils/UserDataStorage.java:74-80 | Corrected rule: an amount of 7900 or more, read as a number, gives its whole number of 7900s. A smaller amount or one that is not a numeral gives 1. |
| `UuidCount.ParseDecimalString` | dispatcher/src/main/java/ru/relex/utils/UserDataStorage.java:74-80 | Reading back the decimal numeral of n gives n. |
| `UuidCount.CountIntendedOfNumeral` | dispatcher/src/main/java/ru/relex/utils/UserDataStorage.java:74-80 | The corrected count of the amount n is max(1, n / 7900). |
| `Storage.UserDataStorage.constructor` | dispatcher/src/main/java/ru/relex/utils/UserDataStorage.java:13-14 | The store starts with no records and no accepted numbers. |
| `Storage.UserDataStorage.ValidateAndSaveCheck` | dispatcher/src/main/java/ru/relex/utils/UserDataStorage.java:17-23 | Result and new fields are those of `SaveCheck` on the old fields. Afterwards any non-null number counts as processed. |
| `Storage.UserDataStorage.ExportToExcel` | dispatcher/src/main/java/ru/relex/utils/UserDataStorage.java:25-63 | A sheet is written iff the write succeeds and, for an existing file, reading it succeeded too. The written sheet is `ExportSheet` for some iteration order that lists each complete record once. |
| `Storage.UserDataStorage.GetUuidCount` | dispatcher/src/main/java/ru/relex/utils/UserDataStorage.java:74-80 | At least 1. A missing record or missing amount gives 1. Otherwise it is `CountAsWritten` of the stored amount. |
| `Storage.UserDataStorage.AssignRandomUuids` | dispatcher/src/main/java/ru/relex/utils/UserDataStorage.java:65-72 | `userData` becomes `AssignUids` of the old map. The accepted set is unchanged. |
| `Storage.UserDataStorage.AddUuid` | dispatcher/src/main/java/ru/relex/utils/UserDataStorage.java:82-85 | `userData` becomes `AddUid` of the old map. The accepted set is unchanged. |
| `Storage.UserDataStorage.IsCheckProcessed` | dispatcher/src/main/java/ru/relex/utils/UserDataStorage.java:87-89 | True exactly for the numbers that `validateAndSaveCheck` would now refuse. |
| `Storage.UserDataStorage.SaveCheckNumber` | dispatcher/src/main/java/ru/relex/utils/UserDataStorage.java:87-93 | Adds the number to the accepted set without creating a record. Afterwards `isCheckProcessed` holds for it. |
| `ControllerSpec.RouteOf` | dispatcher/src/main/java/ru/relex/controller/UpdateController.java:39-76 | A null update or message is ignored. Text beats a document. `/start`, `/export` and `/get_excel` never become answers. A message with neither text nor document is unsupported. |
| `ControllerSpec.Collect` | dispatcher/src/main/java/ru/relex/controller/UpdateController.java:78-106 | No open receipt: the error reply, nothing changes. Step 0 stores fio and goes to 1. Step 1 stores address and goes to 2. Step 2 stores phone and the new uid, then closes the session. Only that record changes. The invariant is kept. |
| `ControllerSpec.HandleDocument` | dispatcher/src/main/java/ru/relex/controller/UpdateController.java:119-127 | Accepted iff the number is present and new. Acceptance opens the session at step 0, even mid-questionnaire. A refused document changes nothing. |
| `ControllerSpec.QuestionnaireCompletes` | dispatcher/src/main/java/ru/relex/controller/UpdateController.java:78-106 | Receipt, then name, address and phone: the record is complete with the new uid and the session is closed. A fourth text gets "send a receipt first" and changes nothing. |
| `ControllerSpec.TextStep` | dispatcher/src/main/java/ru/relex/controller/UpdateController.java:56-76 | `/start` and `/get_excel` change nothing. `/export` fills in missing identifiers. Other text is an answer. |
| `ControllerSpec.Step` | dispatcher/src/main/java/ru/relex/controller/UpdateController.java:39-54 | One update keeps the invariant. It never shrinks the accepted set or the records. Text with no open receipt changes nothing. |
| `ControllerSpec.Run` | dispatcher/src/main/java/ru/relex/controller/UpdateController.java:26-27 | The step stays in 0..2 and an open receipt always has a record, over any conversation. |
| `ControllerSpec.ReceiptAcceptedAtMostOnce` | dispatcher/src/main/java/ru/relex/controller/UpdateController.java:119-127 | Over any conversation a check number is accepted at most once, and never if it was accepted before. |
| `ControllerSpec.UidLines` | dispatcher/src/main/java/ru/relex/controller/UpdateController.java:108-117 | One line `key: uid` per visited record. A missing uid shows as `null`. |
| `ControllerSpec.ListingAppend` | dispatcher/src/main/java/ru/relex/controller/UpdateController.java:111-114 | Visiting one more record appends exactly that record's line to the listing. |
| `ControllerSpec.ListingCoversEveryRecord` | dispatcher/src/main/java/ru/relex/controller/UpdateController.java:108-117 | In any iteration order the listing has one line per record, and every record's line is in it. |
| `Controller.UpdateController.constructor` | dispatcher/src/main/java/ru/relex/controller/UpdateController.java:26-33 | No open receipt, step 0, invariant established. |
| `Controller.UpdateController.ProcessUpdate` | dispatcher/src/main/java/ru/relex/controller/UpdateController.java:39-54 | The new state is `Step` of the old one. Replies are given per route. Only `/export` writes a sheet. |
| `Controller.UpdateController.HandleTextMessage` | dispatcher/src/main/java/ru/relex/controller/UpdateController.java:56-76 | The new state is `TextStep` of the old one. Each command's replies are given. Other text gets `Collect`'s reply. |
| `Controller.UpdateController.HandleExport` | dispatcher/src/main/java/ru/relex/controller/UpdateController.java:62-70 | Fills in identifiers, then exports. A sheet is written iff the export's read and write succeed. If the file exists afterwards, the file and the listing are sent; otherwise the export-failed reply. When an existing file stays and a successful write leaves one (`Controller.ExistsAfterExport`), that reply can only follow a first export whose write failed. |
| `Controller.UpdateController.CollectUserInfo` | dispatcher/src/main/java/ru/relex/controller/UpdateController.java:78-106 | Fields and store change as `Collect` says. The invariant makes the lookups at steps 1 and 2 safe. |
| `Controller.UpdateController.SendUidsToChat` | dispatcher/src/main/java/ru/relex/controller/UpdateController.java:108-117 | The text is the header plus `UidLines` for some iteration order of all records. |
| `Controller.UpdateController.HandleDocumentMessage` | dispatcher/src/main/java/ru/relex/controller/UpdateController.java:119-127 | Fields and store change as `HandleDocument` says. |
| `Controller.UpdateController.SendExcelFile` | dispatcher/src/main/java/ru/relex/controller/UpdateController.java:129-140 | The file is sent iff it exists. Otherwise the "export first" reply. |

## Left out

- Telegram transport (`TelegramBot.java`): polling, sending, file download, bot credentials, `isAdmin`. These are foreign calls. `setView` and `sendExcelFile` return `Reply` values instead of sending.
- `UpdateProducer.java`: a queue interface with no logic and no caller here.
- Apache POI and file I/O:
  - workbook reading and writing, and the hard-coded path, are not modelled;
  - an existing file that `XSSFWorkbook` cannot parse (an empty or truncated file) throws an unchecked POI exception, such as `EmptyFileException`, `NotOfficeXmlFileException` or `POIXMLException`. `catch (IOException e)` does not catch it, so `/export` ends with no reply after the identifiers were assigned. The model has no such outcome: `readOk == false` stands only for an `IOException`;
  - a failed read or write is a flag in `ExportEnv`. A write that fails part-way can leave a truncated file, but the model treats it as writing nothing;
  - other sheets of the workbook are not modelled;
  - rows are dense, so `getLastRowNum() + 1` is the number of existing rows (POI 5 returns -1 for an empty sheet).
- Randomness: the UUIDs are parameters, so their uniqueness is not modelled. `assignRandomUUIDs` also draws a UUID for complete records that already have one and then discards it. That cannot be observed and is not modelled.
- Null arguments: `isCheckProcessed`, `saveCheckNumber`, `addUUID` and `getUUIDCount` take `string`, because no caller passes `null`. A null key would be accepted by Java's HashSet and HashMap. A null `uid` in `addUUID` would throw a NullPointerException from `HashMap.merge`.
- Logging: the `log.error` call in `processUpdate` for a null update, and `printStackTrace` in `exportToExcel`, are output only. A null update is modelled as producing no reply.
- `UuidCount.NumericValue`: weaker than `Character.getNumericValue`. ASCII and full-width digits and letters are exact, and characters outside the Basic Multilingual Plane count as two surrogates. Every other character counts as -1. Java gives some of them other scripts' digit values, -2 for fractions, and for some Basic Multilingual Plane characters values far above 35: the Roman numerals U+2160..U+2188 are worth up to 100000 (U+216F is 1000, U+2182 is 10000, U+2188 is 100000). An amount of such characters can give more than one identifier in Java and one in the model.
- `UuidCount.DigitSum`: does not model `int` overflow of the stream sum. That would need strings of tens of millions of characters.
- Concurrency: the code is single-threaded, so it is not modelled.
- Code elsewhere that writes to the public `userData` map is not modelled. Only the controller's own writes are included.

## Findings

| source | as written | input that shows it | evidently intended | confidence | as-written member | corrected member |
|---|---|---|---|---|---|---|
| dispatcher/src/main/java/ru/relex/utils/UserDataStorage.java:74-80 | Adds up `Character.getNumericValue` of the amount's characters and divides that sum by 7900. For an amount of ASCII or full-width digits and letters, the result is 1 unless it has at least 452 characters. | paymentAmount `"15800"`: digit sum 14, so 1 identifier | Read the amount as a number: 15800 / 7900 = 2 identifiers | not executed; high. Latent in the code shown: nothing writes `paymentAmount` or calls `getUUIDCount` | `UuidCount.CountAsWritten`, shown by `UuidCount.DigitSumUndercounts` | `UuidCount.CountIntended`, proved by `UuidCount.CountIntendedOfNumeral` |
