# zt_bbq CSV upload normalisation, modelled in Dafny

The backend of zt_bbq stores bioprocess time-series data. Its `/upload`
route (`backend/server.js`) takes an uploaded CSV text and two pump labels
chosen by the operator. It turns the text into a batch of records
`{runId, timeStamp, parameter, processValue, unit}` and hands the batch to
a bulk insert. This project models that normalisation step:

- `js_string.dfy` (module `JsString`): the two ECMAScript string built-ins
  the handler uses, `split` with a one-character separator and `trim` (with
  the ECMAScript whitespace set), plus `Join` as the inverse of `Split`.
- `row_parser.dfy` (module `RowParser`): one data line to `Option<Record>`.
  The line is split on commas. Lines with fewer than four fields are
  skipped. Field 0 is the time, field 2 the parameter (default "Unknown"),
  field 4 the value (`|| 0`) and field 6 the unit (default "Unknown").
  "Pump1" and then "Pump2" are renamed, in that order. A line whose time is
  not a number is skipped.
- `batch_normalizer.dfy` (module `BatchNormalizer`): the text is split into
  lines and the first two are dropped. The `for` loop pushing kept records
  onto `dataBatch` is the method `NormalizeBatch`. It is proved equal to the
  specification function `Normalize`. `Upload` returns the argument of the
  bulk insert, or `None` when the batch is empty and the insert is skipped.
- `scenarios.dfy` (module `Scenarios`): uploads with one data line, and
  four worked examples. Each example upload is stated as its fields joined
  by commas between two preamble lines and a final newline, rather than as
  one string literal.

`parseFloat` is a parameter `parse: string -> Number`, where
`Number = NaN | Num(real)`. All results hold for every such function. The
examples pin only the values `parse` gives for the numerals they use.

Three consequences of the code as written:

- A line needs only four fields (`backend/server.js:59`). Missing fields 4
  and 6 become 0 and "Unknown" (`backend/server.js:63-64`).
- The time is tested only with `isNaN` (`backend/server.js:69`), so an
  `Infinity` time would be kept. The model cannot represent `Infinity`
  (see "## Left out").
- The test `isNaN(processValue)` on line 69 can never fire, because `|| 0`
  on line 63 has already replaced `NaN` by 0. `ProcessValueRule` states
  that a line with four fields and a parseable time is always kept. The
  converse, that every kept line has four fields and a parseable time, is
  part of the contract of `ParseRow`.

## Model

| member | source | states |
|---|---|---|
| JsString.Trim | backend/server.js:61-64 | `trim` leaves a string with no whitespace at either end and no longer than the input |
| JsString.TrimIsFactor | backend/server.js:61-64 | `trim` removes only whitespace: its result is a contiguous piece `s[i..j]` of the input, and everything before `i` and after `j` is whitespace |
| JsString.TrimEmptyIffBlank | backend/server.js:62-64 | a field trims to "" exactly when it is all whitespace, which is when the "Unknown" default applies |
| JsString.TrimIdempotent | backend/server.js:61-64 | trimming twice is trimming once |
| JsString.TrimKeepsOut | backend/server.js:64 | trimming never introduces a character the field lacked |
| JsString.Split | backend/server.js:58 | `split` always yields at least one field (`"".split(",")` is `[""]`) |
| JsString.SplitCount | backend/server.js:58-59 | the number of fields is one more than the number of separators |
| JsString.SplitFieldsLackSeparator | backend/server.js:58 | no field holds the separator |
| JsString.JoinSplit | backend/server.js:58 | joining the fields with the separator gives back the text: `split` loses no character |
| JsString.SplitJoin | backend/server.js:58 | splitting fields joined by a separator none of them holds gives back the fields |
| JsString.JoinKeepsOut | backend/server.js:58 | a character in no field, other than the separator, is not in the joined text |
| JsString.SplitConcat | backend/server.js:58 | the fields of `a + sep + b` are the fields of `a` followed by those of `b` |
| JsString.SplitFirstField | backend/server.js:44 | a text starting with a separator-free `a` and a separator has `a` as its first field, then the fields of the rest |
| JsString.SplitWithoutSeparator | backend/server.js:58 | a text without the separator is a single field |
| RowParser.TrimmedField | backend/server.js:62-64 | `parts[i]?.trim()` is defined exactly when field `i` exists, and is then that field trimmed |
| RowParser.OrUnknown | backend/server.js:62-64 | an undefined or empty field becomes "Unknown", any other field is kept, and the result is never empty |
| RowParser.ParseOptional | backend/server.js:63 | a missing field 4 parses to `NaN` |
| RowParser.OrZero | backend/server.js:63 | the logical-or with 0 always yields a number: `NaN` becomes 0 and any number is kept |
| RowParser.ParseRow | backend/server.js:58-73 | a line yields a record exactly when it has at least four fields and its trimmed field 0 parses to a number; the unit then holds no comma |
| RowParser.ParseFields | backend/server.js:59-73 | the fields yield a record exactly when there are at least four and field 0 parses; the record has run "R001002", the parsed time and a non-empty unit |
| RowParser.FewFieldsSkipped | backend/server.js:58-59 | a line with fewer than three commas is skipped, whatever it holds |
| RowParser.UnitLacksComma | backend/server.js:58-64 | the unit taken from a line holds no comma |
| RowParser.ParameterRule | backend/server.js:62-67 | a blank parameter becomes "Unknown"; "Pump1" becomes the pump1 label, unless that label is "Pump2", when it becomes the pump2 label; "Pump2" becomes the pump2 label; any other value is kept |
| RowParser.ProcessValueRule | backend/server.js:61-69 | a line with four fields and a parseable time is always kept; its value is 0 when field 4 is missing or not a number, and the parsed value otherwise |
| RowParser.UnitRule | backend/server.js:64 | the unit is "Unknown" when there is no field 6 or it is blank, and the trimmed field 6 otherwise |
| BatchNormalizer.DataLines | backend/server.js:44 | the data lines are the lines after the first two, and there are none when the text has at most two lines |
| BatchNormalizer.Normalize | backend/server.js:55-74 | the batch never has more records than there are lines |
| BatchNormalizer.NormalizeBatch | backend/server.js:55-74 | the push loop with `continue` computes exactly the batch `Normalize` specifies |
| BatchNormalizer.Upload | backend/server.js:44-79 | the bulk insert is skipped exactly when the batch is empty; otherwise it receives the batch, which holds at most the number of lines minus two records |
| BatchNormalizer.Kept | backend/server.js:57-73 | the indices of the kept lines, increasing, listing every kept line and only kept lines |
| BatchNormalizer.NormalizeIsKeptInOrder | backend/server.js:57-73 | the `k`-th record of the batch is the record of the `k`-th kept line: order kept, no merging, one record per kept line |
| BatchNormalizer.NormalizeAppend | backend/server.js:57-74 | lines are handled independently: the batch of `a + b` is the batch of `a` followed by that of `b` |
| BatchNormalizer.NormalizeEmptyIff | backend/server.js:69-77 | the batch is empty exactly when every line is skipped |
| BatchNormalizer.BatchFiledUnderRun | backend/server.js:46-73 | every record of the batch has run id "R001002" |
| BatchNormalizer.PreambleIgnored | backend/server.js:44 | whatever the two first lines hold, the lines that reach the row rule are those of the rest of the text |
| Scenarios.OneDataLine | backend/server.js:44 | a text of two preamble lines, one line and a final newline has that line and an empty line as data lines |
| Scenarios.OneDataLineBatch | backend/server.js:44-74 | for such a text, the batch is the record of the one line, if any: the empty last line adds nothing |
| Scenarios.EmptyLineDropped | backend/server.js:58-59 | the empty line after a final newline is skipped |
| Scenarios.OneLineUpload | backend/server.js:44-74 | an upload whose one data line is comma-joined fields, none holding a comma or line break, yields the record of those fields, if any |
| Scenarios.GlucoseRow | backend/server.js:61-67 | fields "1.0", "Pump1", "2.5", "mg/L" at positions 0, 2, 4, 6 with pump1 label "Glucose" give time 1.0, parameter "Glucose", value 2.5, unit "mg/L" |
| Scenarios.GlucoseScenario | backend/server.js:44-73 | an upload of two preamble lines, then the fields "1.0", "x", "Pump1", "y", "2.5", "z", "mg/L" joined by commas, then a newline, yields with pump1 label "Glucose" that one record |
| Scenarios.BadTimeRow | backend/server.js:61-69 | fields whose first is "abc", which parses to `NaN`, yield no record |
| Scenarios.BadTimeScenario | backend/server.js:44-73 | an upload of two preamble lines, then the fields "abc", "x", "Glycerol", "y", "2.5", "z", "mg/L" joined by commas, then a newline, yields an empty batch |
| Scenarios.BadValueRow | backend/server.js:63-69 | fields "3.0", "Temp", "n/a", "C", where "n/a" parses to `NaN`, give a kept record with value 0 |
| Scenarios.BadValueScenario | backend/server.js:44-73 | an upload of two preamble lines, then the fields "3.0", "x", "Temp", "y", "n/a", "z", "C" joined by commas, then a newline, yields that one record with value 0 |
| Scenarios.AcidRow | backend/server.js:62-67 | a five-field line with "Pump2" and pump2 label "Acid" gives parameter "Acid" whatever the pump1 label, and unit "Unknown" |
| Scenarios.AcidScenario | backend/server.js:44-73 | an upload of two preamble lines, then the fields "4.0", "x", "Pump2", "y", "7" joined by commas, then a newline, yields with pump2 label "Acid" that one record |

## Left out

- The Express application, CORS, `app.listen` and the health and
  `/data/:run_id` routes (`backend/server.js:9-14, 89-112`): HTTP plumbing.
- Multer storage, the uploads directory and `fs.readFileSync`
  (`backend/server.js:17-30, 43`): file I/O. The model takes the file text
  as a string.
- The Prisma calls `upsert`, `createMany` and `findMany`
  (`backend/server.js:49-53, 77, 94-96`): calls into a database library
  whose behaviour is not visible here. `Upload` returns the batch that
  `createMany` would receive. The `run_client` upsert and the client name
  "ClientDEF" are not modelled.
- Logging and the 400 and 500 responses (`backend/server.js:35-36, 41,
  70-71, 78, 81-84`): output only. The missing-file check on line 35 happens
  before any parsing.
- The IEEE-754 details of `parseFloat`: prefix parsing such as "2.5abc",
  `Infinity` and `-0`. `parse` is an abstract function onto `NaN` or a
  real. An infinite time or value cannot be represented, so the model says
  nothing about a line whose time is "Infinity" (the code keeps it). `-0`
  is folded into 0, which `|| 0` also turns into 0.
- Pump labels missing from the request body (`undefined` in JavaScript):
  the labels are strings.
- JavaScript strings are UTF-16 code units. The model uses Unicode scalar
  values (`char`). This matters only for characters outside the Basic
  Multilingual Plane, which neither `split(",")` nor `trim` treats
  specially.
- The frontend (`frontend/src/...`): React views and `fetch` calls.
