# qb — a verified model of the PostgreSQL statement builder

`qb` is a small Go library that builds PostgreSQL statements from an
in-memory builder and reads the rows back into Go structs. This project
models its core in Dafny and proves properties of it:

- **Cursor codec** (`cursor.dfy`, module `Cursors`; `base64.dfy`, module
  `Base64`). A paging cursor holds fields, filters, order-by list, limit
  and offset. It is written as five newline-terminated records and carried
  as standard base64 (section 4 of RFC 4648). The main result is the round
  trip `Decode(Encode(c)) == c` for every cursor whose names and values
  hold no separators.
- **Select builder and paging** (`selects.dfy`, module `Selects`). The
  `Select` class holds the fields, filters, order-by list, limit and
  offset. Its setters, validation (`Error`), statement assembly and cursor
  restore are modelled. So is the offset arithmetic of `GetNext`,
  `GetPrevious`, `getLast` and `byPKCursor`, with Go's 64-bit wrap-around
  written out.
- **Fragment generators** (`pq.dfy`, module `Pq`). The WHERE clauses with
  their `$n` placeholders and the argument lists that go with them. Both
  forms are modelled: `pqWhere`/`pqFilter`, which number from `$1`, and
  the threaded form, which takes the first number and returns the next.
- **The older `Builder`** (`qb.dfy`, module `Qb`).
- **Table descriptors** (`tables.dfy`, module `Tables`). A Go struct type
  is abstracted as a list of (name, embedded?, `pk` tag) records plus an
  optional type name. From it the model derives the lower-cased field
  names and the primary keys sorted by tag rank.
- **Update/Insert/Delete builder** (`update.dfy`, module `Updates`).
- **Row materialisation** (`list.dfy`, module `Lists`). This covers the
  column-to-field binding of `scanReflectValue` and the coercions of
  `fieldScanner.Scan` and `asString`. The destination struct is a
  sequence of named, typed, settable slots held in an array.
- **The `List` iterator** (`list_iterator.dfy`, module `ListIterator`).
  This is `Get`, `GetNext`, `GetLast`, `Next`, `Close` and `GetAll` over
  an abstract row stream. The stream follows `database/sql`'s rules:
  - `Next` returns false once the rows are used up, and then closes them.
  - `Err` reports the stream's error.
  - `Close` leaves that error in place.

  The database is a parameter. A statement's answer is either a refusal
  or the rows plus the error the stream ends with. The `count` and
  `row_number` results that paging reads are passed in as well.

Shared pieces:
- `text.dfy` (`Text`): joining, splitting, ASCII lower-casing, decimal
  formatting and parsing, and 64-bit wrap-around.
- `values.dfy` (`Values`): the dynamic values a filter or a column holds.
- `filters.dfy` (`Filters`): the filter record and the validation that
  `Select` and `Builder` share.
- `wrappers.dfy` (`Wrappers`): `Option` and `Result`.

Where the tests and the code disagree, the model follows the code:
- `qb_test.go:49-58` expects `SelectByPK` to end in `ORDER BY`. Neither
  `qb.go:89-92` nor `select.go:251-255` appends one.
- `update_test.go:67` calls `b.Query()`, which `Update` does not have. It
  is read as `UpdateQuery`.
- `pqUpdateSet`, `pqMakePlaceholder` and the threaded `pqWhere`/`pqFilter`
  are not defined in `pq.go`. They are specified from their call
  sites (`select.go:291-303`, `update.go:185-197`, `update.go:222-227`)
  and the statements `update_test.go` expects:
  - they emit a leading space;
  - they return `next = starting + count`.
- How `pqUpdateSet` separates two or more assignments is shown by no call
  site and no test: `update_test.go` only ever records one SET pair. The
  model joins them with the WHERE separator `" AND "`; this is a choice,
  not something the code shows.

## Model

| member | source | states |
|---|---|---|
| `Cursors.String` | cursor.go:78-96 | the buffer written step by step is the base64 of the five newline-terminated records (fields joined by ",", each filter as `field,op,value;`, order-by, limit, offset) |
| `Cursors.Encode` | cursor.go:78-96 | the token is never empty and its length is a multiple of four |
| `Cursors.DecodeToSS` | cursor.go:48-55 | an empty record gives no names, and only an empty record does; the pieces joined with "," give the record back and none holds a "," |
| `Cursors.ParseChunk` | cursor.go:64-71 | no filter exactly when the chunk has fewer than three ","-parts; otherwise the filter is parts 0, 1 and 2, the value kept as a string, and no part holds a "," |
| `Cursors.ChunkFiltersSpec` | cursor.go:62-73 | the chunks decode exactly when every non-empty chunk has at least three parts, and then give one filter per non-empty chunk, in order, each the parse of that chunk; empty chunks are skipped |
| `Cursors.DecodeFilters` | cursor.go:57-75 | the loop over the ";"-chunks returns exactly the filters the chunk-by-chunk definition gives, or the error for a short chunk |
| `Cursors.Decode` | cursor.go:23-45 | a token that is not base64 returns the receiver unchanged with the error; a short filter chunk or a missing record is an error at the point Go would panic; with four or more records the fields, filters and order-by are decoded, a non-decimal limit gives the limit error, and a non-decimal offset the offset error with the limit set; no error exactly when all five records decode, and then the cursor is those five values |
| `Cursors.DecodedValuesAreText` | cursor.go:57-75 | every filter value of a fully decoded cursor is a string |
| `Cursors.PayloadRecords` | cursor.go:79-93 | splitting the payload on newlines gives the five records and the empty piece after the last terminator |
| `Cursors.ListRoundTrip` | cursor.go:48-55 | decoding a joined name list whose names hold no "," gives the list back, the empty list included |
| `Cursors.ChunkRoundTrip` | cursor.go:64-71 | one written filter chunk parses back to the same filter |
| `Cursors.FiltersRoundTrip` | cursor.go:57-75 | the `;`-terminated filter record decodes back to the same filters |
| `Cursors.DecodeString` | cursor.go:23-45 | for every cursor without separators in its names and with string filter values, `Decode(Encode(c))` is `c` with no error, whatever the receiver |
| `Base64.ValueOf` | cursor.go:24 | a character's alphabet value is below 64 and maps back to the character |
| `Base64.Encode` | cursor.go:95 | the encoding's length is a multiple of four, and zero only for no bytes |
| `Base64.DecodeGroup` | cursor.go:24 | a quantum decodes to one to three bytes, and to fewer than three only when it is the last |
| `Base64.EncodeAlphabet` | cursor.go:95 | every encoded character is in the alphabet or is the padding "=" |
| `Base64.DecodeEncodeGroup` | cursor.go:24 | each 1-, 2- or 3-byte group decodes back from its four characters |
| `Base64.DecodeEncode` | cursor.go:24 | decoding an encoding gives the bytes back |
| `Text.Wrap64` | select.go:108 | a sum that fits is kept, otherwise it is shifted by 2^64 into the signed 64-bit range |
| `Text.Wrap64AddSub` | select.go:104-125 | adding then subtracting the limit with wrap-around gives the offset back |
| `Text.SplitJoin` | cursor.go:53 | splitting a join of separator-free pieces gives the pieces back |
| `Text.JoinSplit` | cursor.go:53 | joining the pieces of a split gives the text back |
| `Text.ParseFormat` | list.go:264-271 | `strconv.ParseInt` of a decimal in the bit width reads back the number |
| `Text.ParseFormatUint` | list.go:272-279 | `strconv.ParseUint` of a decimal in the bit width reads back the number |
| `Text.ParseInt` | list.go:264-271 | a parsed value is always inside the signed range of the bit width |
| `Text.ParseUint` | list.go:272-279 | a parsed value is always inside the unsigned range of the bit width |
| `Text.AtoiItoa` | cursor.go:33-43 | `strconv.Atoi` reads back every 64-bit number written in decimal |
| `Text.LowerIdempotent` | select.go:196-201 | lower-casing twice is lower-casing once |
| `Filters.FirstUnknown` | select.go:350-357 | the first name not in the table, or the length when there is none |
| `Filters.FirstBadFilter` | select.go:368-378 | the first filter with an unknown field or an unsupported operator |
| `Filters.CheckNoneIff` | select.go:306-317 | the check passes exactly when every field, order-by name and filter field is known and every operator is one of the five |
| `Filters.CheckOrder` | select.go:306-317 | an unknown selected field is reported before anything in order-by or filters |
| `Filters.FieldExist` | select.go:380-387 | true exactly when the name is a table field |
| `Filters.FirstUnknownName` | select.go:350-357 | the loop stops at the first unknown name |
| `Filters.FilterError` | select.go:368-378 | the loop reports the first bad filter, the unknown field before the operator |
| `Filters.Check` | select.go:306-317 | fields, then order-by, then filters; nil exactly when everything is known and valid |
| `Pq.FilterArgs` | pq.go:25-33 | one argument per filter, its value, in filter order |
| `Pq.PqWhere` | pq.go:7-18 | `WHERE k1 = $1 AND k2 = $2 ...`: one equality per key, in key order |
| `Pq.PqFilter` | pq.go:20-34 | "" and no arguments without filters; otherwise one comparison per filter numbered from `$1`, and the filter values |
| `Pq.WhereFrom` | select.go:291-296 | the threaded key clause returns `next = starting + keys` and no arguments |
| `Pq.FilterFrom` | select.go:298-303 | the threaded filter clause is empty exactly without filters, returns the filter values and `next = starting + filters` |
| `Pq.UpdateSetFrom` | update.go:185-190 | the SET list returns the recorded values in order and `next = starting + pairs` |
| `Pq.ThreadedFromOne` | pq.go:7-34 | started at 1, the threaded clauses are the `$1` forms with one leading space |
| `Pq.ComparisonsAppend` | pq.go:25-32 | numbering composes: two filter lists numbered in one go equal the first list followed by the second numbered from where the first stopped |
| `Pq.PlaceholderNumbers` | update.go:177-182 | the i-th placeholder of a VALUES list reads back as `$i+1` |
| `Pq.ComparisonNumber` | pq.go:28 | a comparison's placeholder reads back as its number |
| `Selects.Select.constructor` | select.go:46-48 | `NewPQSelect`: empty lists, zero limit and offset |
| `Selects.Select.SetFields` | select.go:196-201 | appends the lower-cased names in order, keeping the earlier ones |
| `Selects.Select.SetFilter` | select.go:204-212 | appends exactly one filter with the lower-cased field |
| `Selects.Select.SetRange` | select.go:218-222 | appends `>=` then `<=` on the same field |
| `Selects.Select.OrderBy` | select.go:226-229 | replaces the order-by list |
| `Selects.Select.SetLimit` | select.go:233-236 | replaces the limit and nothing else |
| `Selects.Select.SetOffset` | select.go:239-242 | replaces the offset and nothing else |
| `Selects.Select.Reset` | select.go:334-341 | empties the lists and zeroes limit and offset |
| `Selects.Select.InitialQuery` | select.go:257-266 | `SELECT * FROM t` when not explicit and no fields; explicit mode first sets the fields to the table's |
| `Selects.Select.IsOrderByExist` | select.go:282-289 | true exactly when the name is in the order-by list |
| `Selects.Select.OrderByQuery` | select.go:268-280 | the order-by list becomes the old list with the missing primary keys appended in key order |
| `Selects.Select.SelectAll` | select.go:245-248 | the initial query followed by the ORDER BY clause |
| `Selects.Select.SelectByPK` | select.go:251-255 | the initial query followed by ` WHERE` over the keys from `$1` |
| `Selects.Select.Query` | select.go:320-330 | the WHERE clause, ORDER BY, ` LIMIT n` only when the limit is positive and ` OFFSET n` only when the offset is positive; the arguments are the filter values |
| `Selects.Select.Error` | select.go:306-317 | nil exactly when every name is a table field and every operator is supported |
| `Selects.Select.QueryMust` | select.go:397-402 | the check's error instead of the panic, otherwise `Query` |
| `Selects.Select.SetCursor` | select.go:160-178 | a bad token leaves the builder alone; otherwise the non-empty lists are overwritten and limit and offset always are |
| `Selects.Select.Cursor` | select.go:180-193 | "" exactly when the lists are empty, the limit is at most 0 and the offset is 0; otherwise the encoded state |
| `Selects.Select.GetNext` | select.go:104-113 | the restored offset plus the limit, wrapped to 64 bits, then the statement |
| `Selects.Select.GetPrevious` | select.go:116-125 | the restored offset minus the limit, with no clamping |
| `Selects.Select.GetLastOffset` | select.go:137-150 | `ErrDone` when `count - limit <= offset`; otherwise the offset becomes `count - limit` |
| `Selects.Select.GetLast` | select.go:127-135 | `getLast`, then the statement at the last page |
| `Selects.Select.ByPKCursor` | select.go:72-87 | a cursor with limit 1, no filters and offset `row_number - 1` |
| `Selects.OrderWithKeysSpec` | select.go:268-280 | the old list is kept as a prefix, every key is present, and nothing else is added |
| `Selects.OrderWithKeysIdempotent` | select.go:268-280 | a second `orderByQuery` changes nothing |
| `Selects.AppendMissingSpec` | select.go:270-278 | the key loop keeps the prefix, adds every key and only keys |
| `Selects.CursorRoundTrip` | select.go:160-193 | restoring a saved cursor with non-empty lists gives exactly the saved state |
| `Selects.CursorKeepsLists` | select.go:166-176 | an empty list in the cursor keeps the builder's own list |
| `Selects.NextThenPrevious` | select.go:104-125 | a previous page after a next page returns to the starting offset |
| `Selects.LastPageOffset` | select.go:145-148 | without overflow, the last page starts `limit` rows before the end, and `ErrDone` is exactly `count - limit <= offset` |
| `Selects.ByPKCursorDecodes` | select.go:72-87 | the row cursor decodes to limit 1, no filters, and offset `row_number - 1` for a row number of at least 1 |
| `Selects.QueryArgsMatchPlaceholders` | select.go:320-330 | the i-th comparison carries `$i+1` and the i-th argument is that filter's value |
| `Qb.Builder.constructor` | qb.go:42-44 | `NewPQ`: empty lists |
| `Qb.Builder.SetFields` | qb.go:47-52 | appends the lower-cased names |
| `Qb.Builder.SetFilter` | qb.go:55-63 | appends one filter with the lower-cased field |
| `Qb.Builder.SetRange` | qb.go:69-73 | appends `>=` then `<=` |
| `Qb.Builder.OrderBy` | qb.go:77-80 | replaces the order-by list |
| `Qb.Builder.Reset` | qb.go:148-153 | empties the three lists |
| `Qb.Builder.InitialQuery` | qb.go:94-103 | as for `Select`, explicit mode fills in the table's fields |
| `Qb.Builder.OrderByQuery` | qb.go:105-109 | appends every key on every call: the list grows by the number of keys |
| `Qb.Builder.SelectAll` | qb.go:83-86 | the initial query, a space, ORDER BY over the old list plus the keys |
| `Qb.Builder.SelectByPK` | qb.go:89-92 | the initial query, a space and `pqWhere` over the keys |
| `Qb.Builder.Query` | qb.go:140-144 | the initial query, a space and `pqFilter`'s clause, with the filter values |
| `Qb.Builder.Error` | qb.go:126-137 | nil exactly when every name exists and every operator is supported |
| `Qb.Builder.QueryMust` | qb.go:202-207 | fails exactly when `Error` does, and otherwise equals `Query` |
| `Qb.SelectByPKAgrees` | qb.go:89-92 | the builder's key statement is the `Select` key statement |
| `Qb.QueryAgrees` | qb.go:140-144 | with filters, the builder's statement is `Select`'s head; without, it ends in a space |
| `Qb.SimpleTable` | qb_test.go:5-8 | `NewTable("", simple{})` derives the table `simple` with fields `id`, `name` at positions 0 and 1 and the single key `id` |
| `Qb.SelectAllSimple` | qb_test.go:23-40 | over the table derived for `simple`, `SelectAll` gives the two statements the test expects, in both modes |
| `Tables.NewTable` | table.go:21-27 | any non-nil type other than a struct, pointers included, is rejected |
| `Tables.FromStruct` | table.go:29-53 | the loop builds the descriptor the definition gives |
| `Tables.TableOfShape` | table.go:29-53 | a derived table has a non-empty lower-cased name (the type name when none is given), comes from a struct that declares at least one field (embedded ones included, so the stored field list may be empty), has at least one key, and as many positions as stored fields |
| `Tables.VisibleFieldsIndexed` | table.go:44-50 | the fields are the lower-cased names of the non-embedded fields in declaration order, each with its position |
| `Tables.PrimaryKeys` | table.go:55-86 | the loop returns the keys the definition gives, or its error |
| `Tables.CollectRanks` | table.go:58-75 | the tag loop gives the rank map and rank list, or the first bad tag or conflict |
| `Tables.NamesByRank` | table.go:80-84 | the i-th name is the one of the i-th rank |
| `Tables.ScanTagsOk` | table.go:58-75 | the tag scan succeeds exactly when every tag parses and no two ranks coincide |
| `Tables.ScanTagsRange` | table.go:62 | every rank fits in a signed 8-bit integer |
| `Tables.ScanTagsMaps` | table.go:66-72 | every tagged field is in the map under its rank with its lower-cased name, and every rank comes from a tagged field |
| `Tables.PrimaryKeysByRank` | table.go:76-85 | the keys are the tagged names in strictly increasing rank order, and every tagged field is a key |
| `Tables.SortIntsSpec` | table.go:80 | the sort gives an ordered permutation |
| `Tables.SortDistinct` | table.go:80 | distinct ranks sort into a strictly increasing list of the same ranks |
| `Updates.IsFieldExist` | update.go:204-211 | true exactly when the name is a table field |
| `Updates.IsPK` | update.go:213-220 | true exactly when the name is a primary key |
| `Updates.FieldPos` | update.go:62-68 | the first recorded pair with the field, or the length |
| `Updates.Update.constructor` | update.go:31-33 | nothing recorded, no filters |
| `Updates.Update.Set` | update.go:49-59 | an unknown field or a primary key is rejected with nothing changed; otherwise the lower-cased pair is recorded |
| `Updates.Update.Put` | update.go:61-71 | replace-or-append of the pair |
| `Updates.UpsertSpec` | update.go:61-71 | the field then maps to the value, other fields keep theirs, the list grows only for a new field, and untouched pairs keep their positions |
| `Updates.UpsertKeepsValid` | update.go:49-59 | recorded names stay distinct, known and not primary keys |
| `Updates.UpsertIdempotent` | update.go:61-71 | setting the same pair twice is setting it once |
| `Updates.Update.SetFilter` | update.go:74-82 | appends one filter on the lower-cased field |
| `Updates.Update.Reset` | update.go:199-202 | empties both lists |
| `Updates.Update.UpdateQuery` | update.go:93-106 | "" and nothing else when nothing is set; otherwise the statement and arguments, then both lists empty |
| `Updates.UpdateNumbering` | update.go:97-101 | SET at `$1..$m`, WHERE from `$m+1`, arguments the SET values then the filter values |
| `Updates.Update.UpdateByPKQuery` | update.go:117-127 | keys numbered after the SET list, only the SET values as arguments, then reset |
| `Updates.Update.UpdateByPK` | update.go:109-114 | the statement is `UpdateByPKQuery`'s and the caller's key values follow the SET values; the builder is reset when something was Set and unchanged otherwise |
| `Updates.UpdateByPKNumbering` | update.go:117-127 | the key equalities continue the numbering after the SET list |
| `Updates.Update.InsertQuery` | update.go:137-144 | all table fields with one placeholder each |
| `Updates.InsertPlaceholders` | update.go:137-144 | the VALUES list is exactly `$1..$n` |
| `Updates.Update.DeleteByPKQuery` | update.go:156-160 | the DELETE over the key equalities |
| `Updates.Update.DeleteByPK` | update.go:147-153 | fails exactly when the number of values differs from the number of keys |
| `Updates.Update.DeleteQuery` | update.go:170-175 | `DELETE FROM t` and the filter clause with its values, then reset |
| `Updates.UpdateEmp` | update_test.go:19-23 | the expected UPDATE for the `emp` table |
| `Updates.InsertEmp` | update_test.go:26-38 | the expected INSERT for the `emp` table |
| `Updates.ThreePlaceholders` | update_test.go:34 | three placeholders are `$1,$2,$3` |
| `Lists.Convert` | list.go:255-279 | a non-settable slot fails before any kind dispatch; a string slot always succeeds; an integer result fits the slot's width |
| `Lists.ScanField` | list.go:255-279 | success sets exactly that slot; failure leaves the struct as it was |
| `Lists.AsStringReadsBack` | list.go:300-321 | strings unchanged, bytes as the same characters, integers in decimal that parse back |
| `Lists.NoIntFromBool` | list.go:264-279 | a bool or nil column cannot fill an integer slot |
| `Lists.ConvertFits` | list.go:255-279 | a value already of the slot's kind converts to itself |
| `Lists.FieldByNameSpec` | list.go:221-227 | a column finds a field exactly when one and only one field's lower-cased name equals it |
| `Lists.MatchesSpec` | list.go:221-227 | the candidate list is exactly the matching fields, in order |
| `Lists.BindingsComplete` | list.go:220-238 | every column bound exactly when every column finds its field, and then each binding is that field |
| `Lists.BindingsDistinct` | list.go:220-238 | distinct columns bind distinct fields |
| `Lists.BindColumns` | list.go:220-235 | the loop collects the bindings the definition gives |
| `Lists.FillErrors` | list.go:239-241 | the scan fails exactly at the first column that does not convert |
| `Lists.FillValues` | list.go:239-241 | on success each bound field holds its converted column and every other field is unchanged |
| `Lists.ScanRow` | list.go:239-241 | the column loop writes into the struct what the definition gives |
| `Lists.ScanReflectValue` | list.go:210-247 | corrected binding: a non-pointer or a nil pointer fails; a pointer to a struct makes the struct the corrected scan of the row |
| `Lists.ScanStructSucceeds` | list.go:210-247 | the scan succeeds exactly when the struct has fields, at least as many as columns, the row matches the columns and every column finds a field that converts; checks before the row leave the struct alone |
| `Lists.ScanStructValues` | list.go:210-247 | after a successful scan each bound field holds its column's value and unbound fields are unchanged |
| `Lists.PresentAsWrittenSpec` | list.go:220-235 | the loop as written returns exactly when every column finds a settable field |
| `Lists.BindingsAsWrittenSpec` | list.go:220-235 | as written, binding returns exactly when every column finds a usable field, and then agrees with the corrected bindings |
| `Lists.ScanAsWrittenAgrees` | list.go:210-247 | on structs where every column finds a usable field, the scan as written equals the corrected one |
| `Lists.UnmatchedColumnPanics` | list.go:221-231 | an unmatched column panics as written; corrected, it is "destination field not enough" |
| `Lists.UnexportedFieldPanics` | list.go:221-231 | a column bound to an unexported field panics as written; corrected, that column fails as not settable |
| `ListIterator.PullsOpened` | list.go:78 | pulling k rows from a fresh stream gives its first k rows |
| `ListIterator.StreamEnds` | list.go:132-148 | after the last row `Next` is false, the rows are closed, `Err` is the stream's error, and further pulls change nothing |
| `ListIterator.ClosedIsFinal` | list.go:161-163 | closed rows give no row and stay as they are when pulled |
| `ListIterator.EndOf` | list.go:145-148 | `ErrDone` exactly when the stream ended without an error, else that error |
| `ListIterator.List.constructor` | list.go:40-42 | `NewList`: no rows yet |
| `ListIterator.List.Receive` | list.go:51-56 | a refused statement returns the database error and keeps the old rows |
| `ListIterator.List.Get` | list.go:45-57 | a failing check returns its error and changes nothing; otherwise `Query` runs and the answer's rows are kept |
| `ListIterator.List.GetNext` | list.go:99-112 | the restored offset plus the limit, the statement at that offset and its rows |
| `ListIterator.List.GetLast` | list.go:114-125 | `ErrDone` or a count error stop before the statement; otherwise the last page's statement and rows |
| `ListIterator.List.Pull` | list.go:132 | one step of the stream |
| `ListIterator.List.Next` | list.go:129-149 | no row gives `ErrDone` or the stream's error; a row scans into the struct with the corrected binding, and a failed scan closes the rows |
| `ListIterator.List.Close` | list.go:161-163 | the rows are closed and their error stays |
| `ListIterator.Gather` | list.go:76-88 | at most one element per row; without error, one per row, and the reused struct ends as the last element |
| `ListIterator.GatherChain` | list.go:78-83 | element i is row i scanned over element i-1 (over the zero struct for i = 0), so fields no column binds carry over from the previous row |
| `ListIterator.GatherStops` | list.go:79-81 | an error comes from the row right after the last element collected |
| `ListIterator.Overlay` | list.go:82-86 | the caller's elements are overwritten in place and the length stays |
| `ListIterator.OverlaySpec` | list.go:82-83 | the first elements are the collected ones and the rest keep their old values |
| `ListIterator.Store` | list.go:82-86 | the element is written in place while the caller's slice has room and appended after |
| `ListIterator.List.ReadRows` | list.go:76-88 | the loop collects what `Gather` gives, overwrites in place, appends the rest, and leaves the stream after the last row read |
| `ListIterator.List.ReadAll` | list.go:78-96 | a scan error or a stream error is returned with the slice as overwritten; otherwise the slice is exactly the rows read |
| `ListIterator.List.GetAll` | list.go:61-97 | `Get`, the slice-pointer check, then the rows collected into the slice as `Collected` says |
| `ListIterator.CollectedAll` | list.go:76-96 | a stream that scans without error gives a slice of exactly one element per row |
| `ListIterator.CollectedAsWrittenSpec` | list.go:82-94 | as written, `GetAll` panics exactly when it appended and no error stopped it; otherwise it agrees with the corrected version |
| `ListIterator.NameScans` | list.go:210-247 | a one-field struct `Name` scans the row `["al"]` |
| `ListIterator.AppendThenSetLenPanics` | list.go:85-94 | one row into an empty slice panics as written and gives one element when corrected |

## Left out

- SQL execution is left out: `QueryExecer`/`DBExecer`, `sql.Rows`/`sql.Row`, `GetByPK`, `getCount`, and the `Exec` calls of Update/Insert/Delete. A statement's answer, the count and the row number are parameters instead.
- The SQL text of the count and row-number queries (`select.go:77-78`, `select.go:154`) is left out. Only how their results move the offset is modelled.
- The `ScanArger` path of `Next` (`list.go:133-135`, `list.go:151-157`) is left out. It calls the caller's own code.
- Fields that implement `sql.Scanner`, and pointer fields (`list.go:228-235`), are left out. They hand the value to the caller's code. Every field is scanned by `fieldScanner`.
- The float branches of `Scan` and `asString`, and `asBytes`, are left out because they are floating point; `asBytes` is also never called.
- `time.Time` parsing is left out because it belongs to a foreign library.
- Embedded structs are seen by the table derivation only as "embedded". Their promoted fields are not modelled.
- Go reflection is replaced by explicit descriptors: a struct type is a list of field records, and a destination struct is an array of slots.
- Errors returned by a driver's `Close` are not modelled.
- `Update.getArgs` (reflection over the value to insert) is left out.
- `Text.Lower`: lower-casing is ASCII only. Go's `strings.ToLower` is Unicode.
- `Cursors.Decode`: where Go indexes a missing record or a missing filter part it panics. The model returns `MissingRecords` or `MalformedFilter` at that same point: a short filter chunk is reported before any missing record, and a four-record token with a non-decimal limit still gives the limit error. The cursor returned with these two errors carries no meaning, since Go returns none.
- `Cursors.Encode`: filter values are written with `%v` only for strings, byte slices, integers, bools and nil. Any other value is left out.
- `Cursors.DecodeString` covers only cursors whose filter values are strings, since decoding always yields strings.
- `ListIterator.List.Next`, `ListIterator.List.Pull` and `ListIterator.List.Close` require the rows to exist. Go would dereference a nil `rows` and panic.
- `Pq.UpdateSetFrom`: joining two or more assignments with `" AND "` is an unverified choice. In PostgreSQL, `SET a = $1 AND b = $2` would parse as `a = ($1 AND b = $2)`, so a comma-separated list may have been intended.
- `Selects.Select.InitialQuery`, `Qb.Builder.InitialQuery`, `Selects.Select.OrderBy` and `Qb.Builder.OrderBy`: the lists are values, so aliasing is not modelled. In Go, explicit mode takes the table's own `Fields()` slice (select.go:262, qb.go:99), and a later `SetFields` append on two builders over one table can write into the same spare capacity. `OrderBy` keeps the caller's variadic slice (select.go:227, qb.go:78), which the caller can still change.
- `Lists.ScanReflectValue` (and through it `ListIterator.List.Next`): a non-nil pointer to something other than a struct cannot be written as a target. Go lets it past the pointer check and panics at `ve.NumField()` (list.go:214-215) instead of returning "dst must be pointer to struct".
- `Tables.NewTable`: a nil `s` cannot be written as a type. Go panics at `st.Kind()` (table.go:22-23), because `reflect.TypeOf(nil)` is nil.
- `ListIterator.List.ReadRows`: the reused struct is a value passed through the scan function. Go allocates one pointer `v` with `reflect.New` (list.go:74), scans every row into `v.Elem()` through `scanReflectValue` (list.go:214), and copies `v.Elem()` into the slice (list.go:82-86). `Next` keeps the in-place array scan (`Lists.ScanReflectValue`).
- Strings are sequences of characters, one per byte. Cursor payloads are turned into bytes only for characters below 256.

## Findings

| source | as written | input that shows it | evidently intended | confidence | as-written member | corrected member |
|---|---|---|---|---|---|---|
| list.go:221-231 | `dstF.Interface()` is called on the field found for a column before `dstF.IsValid()` is checked | a column `age` with no matching field in struct `{Name, ID}` (the zero `reflect.Value` panics), or a column bound to an unexported field | a column without a usable field gives "destination field not enough", or the field's own not-settable error | not executed | `Lists.ScanStructAsWritten`, `Lists.UnmatchedColumnPanics`, `Lists.UnexportedFieldPanics` | `Lists.ScanStruct`, `Lists.ScanStructSucceeds`, `Lists.ScanReflectValue`, `ListIterator.List.Next` |
| list.go:85-94 | `dst.SetLen(i)` is called on the value returned by `reflect.Append`, which is not addressable | `GetAll` into an empty slice over a stream with one row | the slice ends with exactly one element per row read | not executed | `ListIterator.CollectedAsWritten`, `ListIterator.AppendThenSetLenPanics` | `ListIterator.Collected`, `ListIterator.List.GetAll`, `ListIterator.CollectedAll` |
