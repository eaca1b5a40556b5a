# Table-schema inference, date validation, connection strings and menu trees

This project is a Dafny model of the pure logic of a database-admin web front end. It covers five parts:

- **`parseJsonToTables`, main version** (`json_tables.dfy`, on top of `schema.dfy`).
  - A parsed JSON value is decomposed into a flat list of tables. Each table has an id, a name, a parent id, its fields and two layout numbers.
  - The id counter and the output list are threaded through mutually recursive pure functions: `HandleNode`, `HandleArray`, their loops, and the top-level dispatch.
- **`parseJsonToTables`, earlier variant** (`json_tables_webapi.dfy`). It adds `mergeFieldOrder`, always starts with a `root` table, and gives empty and scalar arrays tables of their own.
- **`isValidDate`** (`date_validator.dfy`).
  - The trimmed input may carry an ISO time suffix (`T` plus a two-digit clock, a fraction and a zone). The suffix is located and range-checked.
  - The remaining date part is matched against the `yyyy-M-d` and `d/M/yyyy` patterns, with an optional space-separated clock.
  - The calendar check of JavaScript's `Date` is written out: Gregorian month lengths, and years 0–99 mapped to 1900–1999.
- **`parseConnectionString`, the template table and `generateConnectionStringByType`** (`connection.dfy`).
  - Each field is the capture of a case-insensitive regular expression `Key=(.*?);`, or `Key=(.*?)(\)|;)` for Oracle. It is modelled as the leftmost match.
  - The split types take host and port from the server value. Every built-in template is proved to parse back to the host, port, database, user and password written in it.
- **`convertToMenuTree`, `recursiveTransform` and `fullTransformToDataNode`** (`menu_transform.dfy`).

`common.dfy` holds the shared pieces:

- `Option`;
- JavaScript's white space and `String.prototype.trim`;
- decimal digits, and `parseInt(_, 10)` with its `NaN` result.

Where the code and its documentation disagree, the model follows the code:

- A top-level object whose only properties are arrays gets no `root` table, because every array counts as `"object"` in `hasSimpleValues`.
  - `{x: []}` gives no table at all (`JsonTables.EmptyArrayProperty`).
  - `{tags: ["a", "b"]}` gives the one table `tags` (`JsonTables.ScalarArrayProperty`).
- In the main version, array-valued properties of array elements become `<type>[]` fields, including `object[]`. They are never recursed into.
- `convertToMenuTree` stores the parent under `parentId`, while the declared `MenuTree` type names it `pId`. The model keeps `parentId`.

## Model

| member | source | states |
|---|---|---|
| Schema.DetectType | src/utils/jsonparsing.ts:6-14 | the tag is `"object"` exactly for arrays and objects, and otherwise one of the scalar names |
| Schema.DetectTypeClasses | src/utils/jsonparsing.ts:6-14 | each scalar tag stands for exactly one kind of value: null, boolean, a string that is or is not a date, a whole or a fractional number |
| Schema.FirstNonNullIndex | src/utils/jsonparsing.ts:55 | `find(v => v !== null)` returns the element at the first index not holding null, after only nulls |
| Schema.ElementTypeCases | src/utils/jsonparsing.ts:93-95 | an array counts as an array of objects exactly when all its elements are null, or its first non-null element is an array or object |
| Schema.ArrayType | src/utils/jsonparsing.ts:62 | an array field's type is one of the array type names, ends in `[]`, and with those two characters removed is exactly the element type of the items; it is `object[]` exactly when the element type is `"object"` |
| Schema.TotalLength | src/utils/jsonparsing.ts:27-30 | the reduce gives an upper bound of every field's name-plus-type length that is attained, or 0 |
| Schema.MaxTypeLength | src/utils/jsonparsing.ts:31-33 | the reduce gives an upper bound of every field's type length that is attained, or 0 |
| Schema.UpdateFieldLength | src/utils/jsonparsing.ts:26-36 | the recomputed table keeps its id, name, parent and fields and satisfies the width and type-column formulas |
| Schema.LayoutBounds | src/utils/jsonparsing.ts:34-35 | a laid-out table is at least 30 wide with the type column at 50 or more; an empty one gets exactly 30 and 50; every field fits the width |
| Schema.TypeWithinTotal | src/utils/jsonparsing.ts:27-33 | the longest type is never longer than the longest name plus type |
| Schema.AddTable | src/utils/jsonparsing.ts:20-24 | `addTable` only appends: earlier tables and their order are kept, exactly one table is added, it carries the given name and parent with no fields and zero width and type column, and a list numbered 1, 2, … stays so numbered when the parent is an already issued id |
| Schema.SetFields | src/utils/jsonparsing.ts:132-133 | setting a table's fields and laying it out changes no other table and not the counter |
| Schema.StartSequential | src/utils/jsonparsing.ts:17-24 | tables added from a fresh counter, each below an earlier table or none, have ids 1, 2, … in output order and parents earlier in the list |
| Schema.ChildNamesAppend | src/utils/jsonparsing.ts:21-22 | the children of a table in a concatenation of table lists are those in the first list followed by those in the second |
| Schema.MergeShape | src/components/webapi/common/jsonparsing.ts:17-26 | `mergeFieldOrder` keeps `existing` as a prefix, ends with exactly the names of both lists, and keeps names unique when they were unique |
| Schema.MergeFirstOccurrence | src/components/webapi/common/jsonparsing.ts:19-24 | every appended field is the first candidate of its name, the name was not present before, and appended fields follow candidate order |
| Schema.MergeUnique | src/components/webapi/common/jsonparsing.ts:18-23 | with unique names in `existing`, the merged list has unique names |
| Schema.MergeNames | src/components/webapi/common/jsonparsing.ts:18-23 | the merged names are the union of both lists' names |
| Schema.MergeConcat | src/components/webapi/common/jsonparsing.ts:19-24 | merging two candidate lists in turn is merging their concatenation, so a loop of merges is a single merge |
| JsonTables.PropField | src/utils/jsonparsing.ts:45-69 | a property gives its object's table a field exactly when it is not an object, not an empty array and not an array of objects, and the field is named after the key |
| JsonTables.NodeFieldsFrom | src/utils/jsonparsing.ts:42-69 | an object's own fields are exactly the fields its properties contribute |
| JsonTables.NodeFieldsUnique | src/utils/jsonparsing.ts:42-69 | with unique keys, an object's own fields have unique names |
| JsonTables.PropCandidate | src/utils/jsonparsing.ts:102-125 | an element's property is offered to the merge exactly when it is not an object and not an empty array |
| JsonTables.ArrayPropertyOffered | src/utils/jsonparsing.ts:117-124 | a non-empty array property of an element is always offered as `<type>[]`, even `object[]` |
| JsonTables.MergeItemsIsMerge | src/utils/jsonparsing.ts:100-128 | the seen-set loop of the first pass is one `mergeFieldOrder` of all the elements' candidates |
| JsonTables.MergedFieldsSpec | src/utils/jsonparsing.ts:96-128 | the merged fields have unique names, are exactly the offered names, each with its first offered type, in first-occurrence order |
| JsonTables.HandleNode | src/utils/jsonparsing.ts:38-85 | `handleNode` adds a table for the node first (an object's table holds its own fields and is laid out), and everything it adds is numbered on and hangs below it or the given parent |
| JsonTables.ObjectNode | src/utils/jsonparsing.ts:39-71 | on an object: its table comes first, with the object's fields, laid out after the loop |
| JsonTables.ArrayNode | src/utils/jsonparsing.ts:72-84 | on an array: at least one table is added, the first named after the node below the given parent, every later one below it or a later table |
| JsonTables.HandleProps | src/utils/jsonparsing.ts:42-70 | the property loop only adds tables below the object's table, each laid out and typed |
| JsonTables.HandleArray | src/utils/jsonparsing.ts:87-156 | `handleArray` adds tables exactly for a non-empty array of objects, its first table holding the merged fields, laid out |
| JsonTables.SecondPass | src/utils/jsonparsing.ts:136-153 | the second pass only adds tables below the array's table |
| JsonTables.SingleTable | src/utils/jsonparsing.ts:194-196 | a single table with the single field `name: type`, laid out, added after all others |
| JsonTables.HasSimpleValues | src/utils/jsonparsing.ts:170-182 | true exactly for an object with some property `detectType` does not call `"object"` |
| JsonTables.TopLevel | src/utils/jsonparsing.ts:185-236 | the dispatch only adds tables numbered from 1 that hang below no parent or an earlier table |
| JsonTables.ParseJsonToTables | src/utils/jsonparsing.ts:159-238 | output ids are 1, 2, … in order, each parent is 0 or an earlier table, and every table is laid out with typed fields |
| JsonTables.ParsedInputEntry | src/utils/jsonparsing.ts:159-238 | a string that parses gives the tables of its parse; a string that does not parse gives the single table `root` with the single field `root` typed `date` exactly when `isValidDate` accepts the string, else `string`; any other input gives its own tables |
| JsonTables.ObjectNodeChildren | src/utils/jsonparsing.ts:52-66 | the direct children of an object's table are its object properties and its arrays of objects, in key order |
| JsonTables.ArrayChildren | src/utils/jsonparsing.ts:136-153 | the direct children of an array's table are one table per object-valued property of each element, in order, never merged |
| JsonTables.NoRootForContainers | src/utils/jsonparsing.ts:198-225 | a top-level object made only of containers gives no `root`; its top-level tables are its keys whose value is not an empty array |
| JsonTables.RootForSimpleValues | src/utils/jsonparsing.ts:226-229 | an object with a simple value gives `root` first, holding its own fields, with its containers as children |
| JsonTables.ScalarInput | src/utils/jsonparsing.ts:230-236 | a scalar gives the single table `root` with the single field `root` of its type |
| JsonTables.ScalarArrayInput | src/utils/jsonparsing.ts:192-197 | an array of scalars gives the single table `root` with the single field `root: <type>[]` |
| JsonTables.ObjectArrayInput | src/utils/jsonparsing.ts:189-191 | an array of objects gives `root` first with the merged fields, and the elements' objects as its children |
| JsonTables.SoleTableShape | src/utils/jsonparsing.ts:34-35 | a one-field table is `10·(|name| + |type|) + 30` wide with the type column where the type still fits |
| JsonTables.EmptyArrayInput | src/utils/jsonparsing.ts:89-91 | an empty top-level array gives no table |
| JsonTables.EmptyArrayProperty | src/utils/jsonparsing.ts:204-207 | `{key: []}` gives no table at all |
| JsonTables.ScalarArrayProperty | src/utils/jsonparsing.ts:216-221 | `{key: [scalars]}` gives no `root`, only the table `key` with the field `key: <type>[]` |
| JsonTables.AllNullArray | src/utils/jsonparsing.ts:185-191 | a non-empty array of nulls counts as an array of objects and gives one empty `root` table, 30 wide with the type column at 50 |
| JsonTables.ArrayTablesOnly | src/utils/jsonparsing.ts:95-154 | an array of objects without object elements gives exactly one table |
| WebApiJsonTables.ScalarFieldsFrom | src/components/webapi/common/jsonparsing.ts:55-66 | an object's fields are exactly its properties `detectType` does not call `"object"`, with that type |
| WebApiJsonTables.MergeScalarsIsMerge | src/components/webapi/common/jsonparsing.ts:88-98 | the first pass is one `mergeFieldOrder` of every object element's scalar properties |
| WebApiJsonTables.MergedScalarsSpec | src/components/webapi/common/jsonparsing.ts:88-98 | the merged fields have unique names, are exactly the offered names, each with its first type, in first-occurrence order |
| WebApiJsonTables.MergedScalarsOnly | src/components/webapi/common/jsonparsing.ts:94 | no object- or array-valued property ever becomes a merged field |
| WebApiJsonTables.HandleNode | src/components/webapi/common/jsonparsing.ts:50-75 | a table for the node first, with the object's scalar fields laid out; a scalar gets only that empty, unlaid table |
| WebApiJsonTables.Children | src/components/webapi/common/jsonparsing.ts:55-67 | the property loop only adds tables below the object's table |
| WebApiJsonTables.HandleArray | src/components/webapi/common/jsonparsing.ts:77-120 | an empty array gives one empty unlaid table; a scalar array one unlaid table with the single field `name: <type>[]`; an array of objects a laid-out table with the merged fields first |
| WebApiJsonTables.SecondPass | src/components/webapi/common/jsonparsing.ts:103-114 | the second pass only adds tables below the array's table |
| WebApiJsonTables.ParseJsonToTables | src/components/webapi/common/jsonparsing.ts:122-124 | ids are 1, 2, … in order with parents earlier, the first table hangs below none, and every table is laid out or one of the two unlaid shapes |
| WebApiJsonTables.ObjectChildren | src/components/webapi/common/jsonparsing.ts:58-63 | the direct children of an object's table are its object and array properties, in key order |
| WebApiJsonTables.ArrayChildNames | src/components/webapi/common/jsonparsing.ts:103-114 | the direct children of an array's table are the containers of each object element, in order |
| WebApiJsonTables.RootFirst | src/components/webapi/common/jsonparsing.ts:122-124 | the first output table is always `root` below no parent |
| WebApiJsonTables.ScalarInput | src/components/webapi/common/jsonparsing.ts:51-75 | a scalar input gives only `root`, with no fields and width and type column left at 0 |
| WebApiJsonTables.ArrayInput | src/components/webapi/common/jsonparsing.ts:71-73 | an array input gives an empty `root` followed by the array's own `root` table, shaped by the array's kind |
| WebApiJsonTables.ObjectInput | src/components/webapi/common/jsonparsing.ts:51-68 | an object input gives `root` first with its scalar fields, and its containers as children |
| WebApiJsonTables.EmptyArrayProperty | src/components/webapi/common/jsonparsing.ts:78-81 | `{key: []}` gives `root` and an empty, unlaid child table `key` |
| DateValidator.DaysInMonth | src/utils/dateValidator.ts:94 | months have 28 to 31 days, and February has 29 exactly in leap years |
| DateValidator.YearLength | src/utils/dateValidator.ts:94-95 | the month lengths add up to 366 days in leap years and 365 otherwise |
| DateValidator.NewLocalDate | src/utils/dateValidator.ts:98-106 | a `Date` built from in-range parts reports them back, except that the full year differs exactly for years below 100 |
| DateValidator.ParseZone | src/utils/dateValidator.ts:43-56 | the zone group is empty, `Z`, or a signed offset of five or six characters |
| DateValidator.ParseIsoSuffix | src/utils/dateValidator.ts:17 | a matched suffix starts with `T`, has colons at the clock positions, clock fields of at most 99 and at most three fraction digits of digits only |
| DateValidator.ParseZoneCaptures | src/utils/dateValidator.ts:43-56 | an accepted zone group is the spelling of what it captured: empty, `Z`, or the sign, two hour digits, an optional colon and two minute digits of the offset, with the offset's fields being two-digit values |
| DateValidator.ParseIsoSuffixCaptures | src/utils/dateValidator.ts:17 | an accepted suffix is exactly the spelling of its captures: `T`, the hour, minute and second as two digits each, the fraction digits after a `.` when there are any, and the zone spelled with or without its colon |
| DateValidator.FindIsoLeftmost | src/utils/dateValidator.ts:17-22 | the suffix found is the leftmost one, and none is found only when no position starts one |
| DateValidator.Millis | src/utils/dateValidator.ts:40-41 | a fraction padded to three digits is at most 999, so the `ms > 999` check never rejects |
| DateValidator.Captures | src/utils/dateValidator.ts:63-78 | once the date groups have matched, the pattern matches exactly when the time group accepts the rest, and the captured year, month and day are the values of the groups, month 1 to 12 and day 1 to 31 |
| DateValidator.MatchYmdCaptures | src/utils/dateValidator.ts:63-78 | whatever pattern 1 returns is read off the text: four digits, a separator, a one- or two-digit month, a separator, a one- or two-digit day and an accepted tail, with year, month and day the values of those digit groups |
| DateValidator.MatchDmyCaptures | src/utils/dateValidator.ts:64-78 | whatever pattern 2 returns is read off the text: a one- or two-digit day, `/`, a one- or two-digit month, `/`, four digits and an accepted tail, with the captured values of those groups |
| DateValidator.MatchYmdSpelled | src/utils/dateValidator.ts:63-78 | every `yyyy-M-d` spelling, with either separator in either place and one- or two-digit month and day, followed by a tail not starting with a digit, matches exactly when the time group accepts the tail, and captures the spelled values |
| DateValidator.MatchDmySpelled | src/utils/dateValidator.ts:64-78 | every `d/M/yyyy` spelling with one- or two-digit day and month, followed by a tail not starting with a digit, matches exactly when the time group accepts the tail, and captures the spelled values |
| DateValidator.ClockSpelledParses | src/utils/dateValidator.ts:63-64 | the time group reads white space followed by `H:m:s` with one- or two-digit fields as the values of those fields |
| DateValidator.PatternsExclusive | src/utils/dateValidator.ts:62-65 | no text matches both date patterns |
| DateValidator.TimeOf | src/utils/dateValidator.ts:81-90 | the ISO time wins over a space-separated clock, and no clock out of range is ever returned |
| DateValidator.DecideCases | src/utils/dateValidator.ts:81-109 | one matched pattern rejects on a bad clock, month or day, accepts from year 100 on, and otherwise goes on to the next pattern |
| DateValidator.PatternsFirst | src/utils/dateValidator.ts:67-110 | when the first pattern matches, its outcome decides |
| DateValidator.AcceptedIsCalendarDate | src/utils/dateValidator.ts:9-111 | whatever is accepted has a date part matching one pattern that names a real day of a year from 100 on |
| DateValidator.BlankIsNotDate | src/utils/dateValidator.ts:11-12 | an empty or all-white-space string is never a date |
| DateValidator.PaddingIgnored | src/utils/dateValidator.ts:11 | white space around the input never changes the verdict |
| DateValidator.YmdIff | src/utils/dateValidator.ts:3-4 | every `yyyy-M-d` spelling, with `-` or `/` as either separator and one- or two-digit month and day, is a date exactly when it names a real day of a year from 100 on |
| DateValidator.DmyIff | src/utils/dateValidator.ts:5 | every `d/M/yyyy` spelling with one- or two-digit day and month is a date exactly when it names a real day of a year from 100 on |
| DateValidator.YmdClockIff | src/utils/dateValidator.ts:84-90 | a `yyyy-M-d` spelling followed by white space and `H:m:s` with one- or two-digit fields is accepted exactly when the date is real and the time has hours at most 23 and minutes and seconds at most 59 |
| DateValidator.DmyClockIff | src/utils/dateValidator.ts:84-90 | the same for a `d/M/yyyy` spelling followed by white space and a time |
| DateValidator.IsoIff | src/utils/dateValidator.ts:17-59 | a `yyyy-M-d` spelling with an ISO suffix (up to three fraction digits; no zone, `Z`, or an offset with or without its colon) is accepted exactly when the date is real, the time is in range and any offset has hours at most 14 and minutes at most 59 |
| DateValidator.DmyIsoIff | src/utils/dateValidator.ts:17-59 | the same for a `d/M/yyyy` spelling with an ISO suffix |
| DateValidator.IsoOverridesClock | src/utils/dateValidator.ts:80-90 | with an ISO suffix, a space-separated clock before it is ignored, out of range or not |
| DateValidator.LeapDayExamples | src/utils/dateValidator.ts:94-95 | `2024-02-29` is a date and `2023-02-29` is not |
| DateValidator.CenturyLeapDayExamples | src/utils/dateValidator.ts:94-95 | `2000/02/29` is a date and `1900-02-29` is not |
| DateValidator.ShortYearExample | src/utils/dateValidator.ts:98-100 | `0099-01-01` is rejected |
| DateValidator.ShortFieldExamples | src/utils/dateValidator.ts:63 | `2024-2/9` is a date and `2023-2-29` is not |
| DateValidator.DayFirstExamples | src/utils/dateValidator.ts:64 | `31/12/2024` and `9/2/2024` are dates and `31/04/2024` is not |
| DateValidator.ClockExamples | src/utils/dateValidator.ts:84-90 | `2024-01-05 23:59:59` and `2024-01-05 9:5:7` are dates |
| DateValidator.ClockRangeExample | src/utils/dateValidator.ts:89 | `2024-01-05 24:00:00` is not a date |
| DateValidator.OffsetExamples | src/utils/dateValidator.ts:44-55 | `+08:00` with a one-digit fraction and `+0800` are accepted, and a `+15:00` offset is rejected |
| DateValidator.OverrideExample | src/utils/dateValidator.ts:82-83 | `2024-01-05 99:99:99T10:00:00Z` is a date |
| Common.TrimPadded | src/utils/dateValidator.ts:11 | white space added on both sides does not change the trimmed string |
| Common.TrimIsSlice | src/utils/dateValidator.ts:11 | `trim` removes only white space, from both ends, and keeps a slice of the input |
| Common.ParseIntDefined | src/views/common/connection.ts:14 | `parseInt` gives a number exactly when a digit follows the leading white space and optional sign |
| Common.ParseIntDigits | src/views/common/connection.ts:30 | `parseInt` of a digit string is its decimal value |
| Connection.StopFrom | src/views/common/connection.ts:8 | the lazy group stops at the first stop character or line terminator, or the end |
| Connection.CaptureSpec | src/views/common/connection.ts:8-11 | `match` fails exactly when no position matches, and otherwise captures the value of the leftmost match |
| Connection.CaptureClean | src/views/common/connection.ts:38-42 | a captured value holds no stop character and no line terminator |
| Connection.CaptureAt | src/views/common/connection.ts:24-28 | a key followed by a clean value and a stop, with no earlier occurrence of the key, captures that value |
| Connection.DialectOf | src/views/common/connection.ts:6-80 | exactly the codes `0` to `8` have an extraction |
| Connection.Extract | src/views/common/connection.ts:7-77 | database, user and password are the captures of their keys, and the host is set exactly when the server key matches |
| Connection.ParseConnectionString | src/views/common/connection.ts:78-81 | an unknown type code gives the empty object |
| Connection.FieldsFromMatches | src/views/common/connection.ts:8-18 | each field is set exactly when its key matches; a port key sets the port exactly when it matches; a split type sets the port exactly when the server value holds the separator |
| Connection.SplitServerFields | src/views/common/connection.ts:12-15 | for the split types the host is the server value up to the separator, and the port is `parseInt` of the next separated part |
| Connection.GroupsAgree | src/views/common/connection.ts:21-23 | codes `1`, `6`, `7`, codes `2`, `5` and codes `4`, `8` parse every string alike |
| Connection.GenerateConnectionString | src/views/common/connection.ts:98-105 | a known type gets its template and any other type the empty string |
| Connection.SplitOnce | src/views/common/connection.ts:12-14 | `split(sep)[0]` and `split(sep)[1]` of `a + sep + b` are `a` and `b` when neither holds the separator |
| Connection.ExtractKeyed | src/views/common/connection.ts:29-33 | with a port key, the captured values are the fields, the port through `parseInt` |
| Connection.ExtractSplitPort | src/views/common/connection.ts:55-58 | a server value `host` + separator + `port` gives that host and `parseInt` of that port |
| Connection.ExtractSplitNoPort | src/views/common/connection.ts:55-58 | a server value without the separator is all host and sets no port |
| Connection.Template0ReadsBack | src/views/common/connection.ts:86 | the type `0` template parses back to host `127.0.0.1`, port 30015, database `myDB`, user `system`, password `Pwd@123` |
| Connection.Template1ReadsBack | src/views/common/connection.ts:87 | the template of types `1`, `6`, `7` parses back to port 3306, user `root` and its other values |
| Connection.Template2ReadsBack | src/views/common/connection.ts:88 | the Oracle template of types `2`, `5` parses back to host `127.0.0.1`, port 1521, service name `myDB`, user `sys` |
| Connection.Template3ReadsBack | src/views/common/connection.ts:89 | the type `3` template parses back to its host, database, user `sa` and password, with no port |
| Connection.Template4ReadsBack | src/views/common/connection.ts:90 | the template of types `4`, `8` parses back to port 5432, user `postgres` and its other values |
| MenuTransform.ConvertItem | src/utils/menuTransform.ts:5-11 | a record becomes a node with its id, `title` as label and `parentID` as parent, with children exactly when it has a non-empty children array |
| MenuTransform.ConvertToMenuTree | src/utils/menuTransform.ts:3-14 | one node per record, in order |
| MenuTransform.TransformNode | src/utils/menuTransform.ts:25-38 | a node becomes a widget node keyed by its id and titled by its label, with a `children` key exactly when it has children |
| MenuTransform.RecursiveTransform | src/utils/menuTransform.ts:23-40 | one widget node per node, in order |
| MenuTransform.FullTransformToDataNode | src/utils/menuTransform.ts:17-20 | one widget node per record, with the record's id as key and title, and children exactly when the record has a non-empty children array |
| MenuTransform.FullTransformIsDirect | src/utils/menuTransform.ts:17-20 | the two maps in a row equal a direct map from records to widget nodes |
| MenuTransform.EmptyChildrenIsLeaf | src/utils/menuTransform.ts:9-11 | a record with an empty children array becomes a widget node without `children` |
| MenuTransform.EmptyTreeChildrenKept | src/utils/menuTransform.ts:27-33 | a tree node with an empty children array keeps an empty `children` key |
| MenuTransform.ConvertKeepsOrder | src/utils/menuTransform.ts:3-13 | converting keeps every record at every depth, in pre-order, with its id and title |
| MenuTransform.TransformKeepsOrder | src/utils/menuTransform.ts:23-39 | transforming keeps every node at every depth, in pre-order, with its key and title |
| MenuTransform.FullTransformKeepsOrder | src/utils/menuTransform.ts:17-20 | the pipeline lists every record's id and title, at every depth, in the order of the response |

## Left out

- `JSON.parse` is not modelled. The engines take an already parsed `Json` value. `JsonTables.ParsedInput` takes the parse result as a parameter.
- A `Json` object may list the same key twice, while `JSON.parse` keeps only the last value of a repeated key. Such objects have no JavaScript counterpart; the lemmas that need distinct keys say so in their preconditions.
- `v instanceof Date` is not modelled, because a parsed JSON value is never a `Date`.
- JavaScript numbers are modelled as real numbers with `Number.isInteger` as wholeness. Floating-point rounding is left out.
- `Object.keys` order is taken as the order of the property list.
- String lengths count characters, not UTF-16 code units.
- The validator's `typeof dateString !== 'string'` branch is not modelled, because the model's input is always a string.
- `isValidDate` models `Date` as the proleptic Gregorian calendar with no time zone. Local-time and daylight-saving effects of the host are left out.
- The variant engine imports a date validator from its own directory. That file is not part of this model, and the model uses the same `isValidDate` as the main engine.
- Connection.Fold: case-insensitive matching folds the ASCII letters only. Every key is ASCII, and no other character folds onto an ASCII letter in a non-Unicode JavaScript regular expression.
- The template lookup `connectionStringTemplates[databaseType]` is modelled for one-character codes. Prototype keys such as `toString` would return a function and are left out.
- `generateConnectionStringByType` writes into `model.connectionString`. The model returns the string instead.
- Connection.Template0ReadsBack to Connection.Template4ReadsBack build each template from its pieces (`Concat` of `Parts0` … `Parts4`). The pieces concatenate to the literal strings of the template table.
- MenuTransform: record fields are modelled as present, with an integer `id`, a string `title` and an optional integer `parentID`. A `children` value that is not an array is left out.
- `fullTransformToDataNode` on a response without `data` would throw. That case is left out.
- The `MenuTree` type declares `pId`, but the model follows the code's `parentId`.
