# DBF to SQL migration: a Dafny model

This is a model of the part of the migration scripts that turns rows into SQL. The scripts read a legacy garage-yard DBF database and write SQL INSERT scripts from it:

- `main.py` converts the client table (`CLIENTES.DBF`) into owners (`proprietarios`). It hands each client a fresh id and remembers the mapping from legacy client code (CLICOD) to new id. It then converts the vehicle table (`veiculo.dbf`) into vehicles (`veiculos`), each linked to its owner through that mapping.
- `mainTipo.py` converts the vehicle-type table (`TIPOVEI.DBF`) into `tipoVeiculos`.

The model takes in rows that have already been read. It returns the statements as strings. The table reader, the output files and the logging stay outside the model.

Modules (one file each):

- `Outcomes`: `Option`, and a `Result` whose failures are the two Python exceptions the builders and the client loop can raise:
  - `KeyError`, raised by the client loop of `main` when a row has no CLICOD;
  - `TypeError`, raised by a builder when a notes field is not text.
- `Numerals`: Python's `str(int)` and zero-padded digits, each with a parser that reads the text back.
- `PyStrings`: `str.replace` for one character, `str.strip`, `str.join`, and a reader for the inside of a quoted SQL literal.
- `PyValues`: the closed set of field values a row can hold:
  - None;
  - text;
  - int;
  - bool;
  - float, carried as its printed text;
  - date;
  - anything else, carried as its `str()`.

  The module also gives `str()`, Python truthiness and the ISO date text.
- `Escaping`: `escape_sql_string` of `main.py`.
- `Fields`: rows as maps from field name to value, and field mappings as ordered lists of (legacy field, column) pairs. Python dicts keep insertion order, so the mappings are walked in declaration order. The module also holds the selection of mapped fields, the column de-duplication and the INSERT text.
- `Owners`: `generate_client_sql`.
  - `Owners.OwnerStatement` is the statement as a function of the row.
  - The class `Owners.ClientData` is the dict the builder writes the merged notes back into.
  - `Owners.GenerateClientSql` is the builder's loop, proved against `OwnerStatement`.
- `Vehicles`: `generate_vehicle_sql`.
  - `Vehicles.VehicleStatement` is the function.
  - `Vehicles.GenerateVehicleSql` is the loop.
- `Migration`: the two loops of `main`.
  - `Migration.OwnerPass` is the client pass as a function: the id map and the owner statements.
  - `Migration.AssignOwnerIds` is its loop.
  - `Migration.RowPass` and `Migration.VehicleSqls` are the vehicle pass.
  - `Migration.Migrate` runs both passes.
- `VehicleTypes`: `mainTipo.py`, its escaper without the date branch, `generate_tipo_veiculos_sql` and its loop.

Each loop is a method whose postcondition equates its result (and, for the client builder, the row's new contents) with the function. The properties are proved as lemmas about the functions.

Several details follow the code exactly:

- Every owner statement has an `observacoes` column. This holds even when the row has no notes, because the merged notes are always written back into OBS1 (`main.py` line 48). A row holding only a name gives `INSERT INTO proprietarios (id, nome_completo, observacoes) VALUES (1, "Jane ""J"" Doe", NULL);` (`Owners.NameOnlyExample`).
- In every field, None and the empty string are written as `NULL` by `escape_sql_string` (lines 8-9, 83). Other falsy values (0, False, 0.0) become `NULL` only in the fields named `DATAENT` and `DATLIB` (line 80). The mapping reads the entry date from `DATENT` (line 121), so a zero or false entry date is written as `0` or `False` (`Vehicles.EntryDateNotNulled`). The model keeps that behaviour.
- The vehicle notes are concatenated without stripping, so they are never `NULL`.
- The fallback branch of the escaper quotes `str(value)` without doubling its quotes (`Escaping.OtherLiteralUnescaped`).

## Model

| member | source | states |
|---|---|---|
| Numerals.IntToString | main.py:14 | definition: `str(int)`, also used for the id at line 64 and the owner reference at line 90 |
| Numerals.PadDigits | main.py:16 | definition: the zero-padded `%Y`, `%m` and `%d` fields; the text has the given width and only digits |
| Escaping.Quote | main.py:12 | definition: the `"…"` wrapping used at lines 12, 16 and 18 |
| Fields.Keep | main.py:51 | definition: the test `col in client_data and col not in ignore_columns` (also line 56, and mainTipo.py line 30 with no ignore set) |
| Fields.Targets | main.py:51 | definition: the column list of a selection (also line 85, and mainTipo.py line 33) |
| Fields.Literals | main.py:55-59 | definition: the escaped values of a selection, in order (also mainTipo.py line 34) |
| Owners.OwnerTable | main.py:20 | definition: the default table name `proprietarios` |
| Owners.OwnerMapping | main.py:24-35 | definition: the ten client fields and their columns, in declaration order |
| Owners.OwnerIgnored | main.py:38 | definition: the ignored fields FDCLIENT, FACLIENT, ULTIMO |
| Vehicles.VehicleTable | main.py:71 | definition: the default table name `veiculos` |
| Vehicles.VehicleMapping | main.py:110-123 | definition: the twelve vehicle fields and their columns, in declaration order |
| Vehicles.NullableDateKeys | main.py:80 | definition: the keys `DATAENT` and `DATLIB`, whose falsy values become `NULL` |
| Migration.StartId | main.py:125 | definition: the first id, 1 |
| VehicleTypes.TipoTable | mainTipo.py:17 | definition: the default table name `tipoVeiculos` |
| VehicleTypes.TipoMapping | mainTipo.py:20-24 | definition: TIPO, DIARIA, GUINCHO and their columns, in declaration order |
| Escaping.Escape | main.py:6-18 | definition: `escape_sql_string` |
| Escaping.EscapeText | main.py:12 | definition: the two `replace` calls |
| PyValues.Str | main.py:13-18 | definition: `str(value)` |
| PyValues.IsoDate | main.py:16 | definition: `strftime('%Y-%m-%d')` |
| PyValues.Falsy | main.py:80 | definition: `not valor` |
| PyStrings.Replace | main.py:12 | definition: `str.replace` for a one-character pattern |
| PyStrings.Strip | main.py:45 | definition: `str.strip()` |
| PyStrings.Join | main.py:41 | definition: `str.join` |
| Fields.Get | main.py:57 | definition: `dict.get(key, default)` |
| Fields.Insert | main.py:102 | definition: the `INSERT INTO <table> (<cols>) VALUES (<vals>);` text |
| Owners.NotesField | main.py:41-45 | definition: one notes field read with default `''`, a TypeError when it is not text |
| Owners.MergedNotes | main.py:41-45 | definition: the notes merge |
| Owners.OwnerStatement | main.py:41-64 | definition: `generate_client_sql` as a function of the row |
| Owners.OwnerInsert | main.py:51-64 | definition: the statement text for a row whose notes are merged |
| Owners.ClientData.constructor | main.py:143 | the builder's row starts as the given fields |
| Vehicles.FormatField | main.py:77-83 | definition: the literal for one mapped field |
| Vehicles.FieldLiterals | main.py:76-85 | definition: the literals of all mapped fields, in order |
| Vehicles.OwnerRef | main.py:88-90 | definition: the owner reference |
| Vehicles.ConcatNotes | main.py:94-97 | definition: the vehicle notes concatenation |
| Vehicles.VehicleStatement | main.py:71-102 | definition: `generate_vehicle_sql` as a function of the row, id map, mapping and table |
| Migration.ClientStatement | main.py:142-145 | definition: one client row's statement, a KeyError when CLICOD is missing |
| Migration.OwnerPass | main.py:137-147 | definition: the client pass as a function of the rows |
| Migration.RowPass | main.py:157-160 | definition: a builder applied to each row in turn |
| Migration.VehicleBuilder | main.py:159-160 | definition: the vehicle builder with the client id map |
| Migration.BothPasses | main.py:137-160 | definition: the client pass, then the vehicle pass with its id map |
| VehicleTypes.TipoEscape | mainTipo.py:5-15 | definition: mainTipo.py's `escape_sql_string` |
| VehicleTypes.TipoStatement | mainTipo.py:26-36 | definition: `generate_tipo_veiculos_sql` as a function of the row |
| Escaping.EscapeIsNull | main.py:8-9 | a value becomes `NULL` exactly when it is None or the empty string; 0 and False do not (floats aside) |
| Escaping.TextLiteral | main.py:10-12 | a non-empty text becomes a literal that starts and ends with `"` and has no raw line break; its inside, with each `""` read as `"`, is the text with line breaks as backslash-n |
| Escaping.EscapeTextCollapses | main.py:12 | collapsing the doubled quotes of the escaped text gives back the text with line breaks written as backslash-n, so no quote is left single |
| Escaping.EscapeTextCons | main.py:12 | the two replacements act character by character: `"` becomes `""`, a line break becomes backslash-n, anything else stays |
| Escaping.EscapeTextAppend | main.py:12 | escaping a concatenation escapes each part |
| Escaping.EscapeTextPlain | main.py:12 | text with no quote and no line break is unchanged by escaping |
| Escaping.EmbeddedQuotesDoubled | main.py:12 | each of two embedded quotes is doubled and the surrounding text kept |
| Escaping.NumberLiteral | main.py:13-14 | an int becomes unquoted decimal text that parses back to it; a bool becomes unquoted `True`/`False` |
| Escaping.DateLiteral | main.py:15-16 | a date becomes `"YYYY-MM-DD"`: twelve characters, dashes in place, and digit groups that read back as year, month and day |
| Escaping.OtherLiteralUnescaped | main.py:17-18 | any other value becomes its `str()` in quotes, unescaped: the literal differs from the escaped one exactly when that text holds a quote or a line break |
| Escaping.EscapedTextLonger | main.py:12 | text holding a quote or a line break gets longer when escaped |
| Escaping.EscapeTextLength | main.py:12 | escaping never shortens text |
| Escaping.OtherLiteralLoneQuote | main.py:17-18 | the value whose `str()` is `5" rim` gives `"5" rim"`, whose inside cannot be read back |
| Numerals.IntToStringRoundTrip | main.py:14 | `str(i)` is a sign or digit followed by digits, and parses back to `i` |
| Numerals.NatToStringRoundTrip | main.py:14 | the decimal digits of a natural number read back as that number |
| Numerals.PadDigitsValue | main.py:16 | a value that fits the width reads back from its zero-padded digits |
| PyValues.IsoDateRoundTrip | main.py:16 | the ISO text of a date is ten characters with dashes at 4 and 7, and its digit groups read back as the date |
| PyStrings.ReplaceAppend | main.py:12 | replacing one character in a concatenation replaces in each part |
| PyStrings.ReplaceAbsent | main.py:12 | replacing a character the text does not hold changes nothing |
| PyStrings.ReplaceRemoves | main.py:12 | after the replacement the character is gone, unless the replacement brings it back |
| PyStrings.LStripSpec | main.py:45 | left strip drops exactly the leading white space: what it removes is white space and what it keeps does not start with white space |
| PyStrings.RStripSpec | main.py:45 | right strip drops exactly the trailing white space |
| PyStrings.StripSpec | main.py:45 | `strip()` is the slice left once white space is cut from both ends, and it neither starts nor ends with white space |
| PyStrings.StripEmpty | main.py:45 | `strip()` is empty exactly when the text is all white space |
| PyStrings.JoinCons | main.py:41 | joining puts the separator after the first item |
| Fields.Kept | main.py:51 | the selected entries are drawn from the mapping, no more of them than it has, and each names a field the row holds and the ignore set does not (their order is given by Fields.KeptAppend) |
| Fields.KeptComplete | main.py:55-56 | no entry that passes the test is dropped |
| Fields.KeptNone | main.py:55-56 | a mapping none of whose entries passes the test selects nothing |
| Fields.KeptAppend | main.py:55-56 | selection from a concatenation selects from each part in turn, keeping mapping order |
| Fields.LiteralsStep | main.py:55-59 | one more mapping entry adds its literal exactly when it is selected |
| Fields.TargetsStep | mainTipo.py:29-33 | one more mapping entry adds its column exactly when it is selected |
| Fields.Dedup | main.py:62 | `dict.fromkeys` keeps exactly the same items, each once, in the order of their first occurrences |
| Fields.FirstIndex | main.py:62 | the position it gives holds the item, and no earlier position does |
| Fields.FirstIndexSnoc | main.py:62 | appending an item moves no first occurrence, and an item new to the list first occurs at the end |
| Fields.DedupOfDistinct | main.py:62 | de-duplicating a list without repeats changes nothing |
| Fields.KeptTargetsDistinct | main.py:62 | a mapping with distinct columns gives distinct columns for every row |
| Owners.GenerateClientSql | main.py:20-65 | the statement is `OwnerStatement` of the row as given; on success the caller's row now has the merged notes under OBS1, on failure it is unchanged |
| Owners.MergedNotesSpec | main.py:41-45 | the merge fails with a TypeError naming a notes field that holds something other than text, exactly when one does; otherwise it is OBS1, OBS2, OBS3 (missing as empty) joined by line breaks and stripped |
| Owners.JoinThree | main.py:41-45 | joining three items puts the separator between each pair |
| Owners.NotesNullWhenBlank | main.py:41-58 | the `observacoes` literal is `NULL` exactly when all three notes are blank |
| Owners.NoNotesMerge | main.py:41-48 | a row with no notes fields merges to empty notes |
| Owners.OwnerTargetsDistinct | main.py:24-35 | the owner mapping's columns are distinct |
| Owners.OwnerSelection | main.py:24-51 | once OBS1 is written back, the selected entries are exactly the mapped fields the row holds (the ignore set removes none), their columns are distinct and the last is OBS1 as `observacoes` |
| Owners.OwnerRow | main.py:51-64 | the statement is `INSERT INTO proprietarios (id, <cols>) VALUES (<new id>, <vals>);` with the id first and bare; de-duplication changes nothing, so each column pairs with its literal, and the last is `observacoes` with the merged notes |
| Owners.AddressFieldsUnselected | main.py:51-56 | a row holding only the name and the notes selects none of the address and document fields |
| Owners.NameAndNotesSelection | main.py:51-56 | such a row selects exactly the name and the notes, in that order |
| Owners.NameAndNotesColumns | main.py:51-64 | its column list is `nome_completo, observacoes` |
| Owners.NameAndNotesLiterals | main.py:55-64 | its value list is the name's literal and then the notes' literal |
| Owners.NameOnlyColumns | main.py:48-64 | a name-only row with its empty notes written back gives those columns and the values name, `NULL` |
| Owners.NameOnlyRow | main.py:41-64 | a row holding only a name gives `INSERT INTO proprietarios (id, nome_completo, observacoes) VALUES (<id>, <name>, NULL);` |
| Owners.NicknameLiteral | main.py:12 | `Jane "J" Doe` becomes `"Jane ""J"" Doe"` |
| Owners.NameOnlyExample | main.py:20-64 | the row `{NMCLIENT: 'Jane "J" Doe'}` with id 1 gives `INSERT INTO proprietarios (id, nome_completo, observacoes) VALUES (1, "Jane ""J"" Doe", NULL);` |
| Vehicles.GenerateVehicleSql | main.py:71-103 | the statement is `VehicleStatement` of the row, id map, mapping and table; neither the row nor the map is changed |
| Vehicles.ConcatNotesSpec | main.py:94-97 | the vehicle notes fail exactly when a notes field is not text, with the same error as the owner merge; otherwise the owner notes are the vehicle notes stripped |
| Vehicles.VehicleFailure | main.py:94-97 | the statement fails exactly when a notes field is not text, with a TypeError naming such a field; mapped fields never make it fail |
| Vehicles.VehicleRow | main.py:76-102 | every mapped field is emitted in mapping order, present or not, paired with its literal; then `proprietario_cod` with the owner reference and `obs` with the notes; `\|mapping\| + 2` columns and no id |
| Vehicles.MissingFieldNull | main.py:77-84 | a mapped field the row lacks is emitted as `NULL` |
| Vehicles.PlainFieldEscaped | main.py:78-83 | outside DATAENT and DATLIB a field's literal is `escape_sql_string` of its value |
| Vehicles.ExitDateNull | main.py:78-81 | a date is quoted `YYYY-MM-DD`; DATLIB is `NULL` exactly when its value is falsy (floats aside) |
| Vehicles.EntryDateNotNulled | main.py:80-83 | DATENT, the entry-date key of the mapping (line 121), is not among the keys whose falsy value becomes `NULL`, so a zero entry date gives `0` and a false one `False`, where the exit date gives `NULL` |
| Vehicles.OwnerRefSpec | main.py:88-90 | the owner reference is `NULL` exactly when CODCLI (None if missing) is not in the id map; otherwise it is bare decimal text that parses back to the mapped id |
| Vehicles.NotesLiteral | main.py:93-97 | the notes literal is never `NULL`: it is quoted, has no raw line break, and its inside reads back as `OBS1 \n OBS2 \n OBS3` (not stripped) with line breaks as backslash-n |
| Vehicles.BlankNotesLiteral | main.py:94-97 | a row without notes gets the notes `"\n\n"` and the literal of the two escaped line breaks |
| Vehicles.VehicleColumns | main.py:110-123 | the vehicle statement has the fourteen columns in order, ending in `proprietario_cod`, `obs`, with no `id`, and `dt_entrada` is read from DATENT |
| Migration.OwnerPassExtend | main.py:141-147 | one more client row extends the pass with its code mapped to `start + i` and its statement, or fails with that row's error |
| Migration.OwnerPassPrefixFailure | main.py:141-147 | once a prefix of the clients fails, the pass fails with the same error |
| Migration.AssignOwnerIds | main.py:137-147 | the client loop's id map and statement list are `OwnerPass` with `generate_client_sql`, or its first error |
| Migration.OwnerPassSpec | main.py:137-147 | the client pass succeeds exactly when every row does with id `start + i`; then statement i is row i's, in order; on failure the error is the first failing row's |
| Migration.OwnerIdsSpec | main.py:141-144 | after a successful pass every row had a CLICOD, every code is in the map, and each code maps to the id of the last row carrying it |
| Migration.DistinctKeysIds | main.py:138-147 | with distinct client codes, row i's code maps to `start + i` |
| Migration.RowPassPrefixFailure | main.py:159-160 | once a prefix of the rows fails, the pass fails with the same error |
| Migration.RowPassSpec | main.py:157-160 | the row pass succeeds exactly when every row does; then it gives one statement per row, in order; on failure the error is the first failing row's |
| Migration.VehicleSqls | main.py:157-160 | the vehicle loop's statements are the row pass of the vehicle builder with the client id map |
| Migration.Migrate | main.py:125-160 | both loops together give the owner statements and the vehicle statements, or the first error |
| Migration.VehicleOwnerLink | main.py:137-160 | after the client pass with distinct codes, a vehicle whose CODCLI is client row i's code refers to owner id `1 + i`, and one whose CODCLI matches no client refers to `NULL` |
| VehicleTypes.TipoEscapeAgrees | mainTipo.py:5-15 | the escaper without a date branch agrees with main.py's on every value, since `str()` of a date is its ISO text |
| VehicleTypes.TipoEscapeSpec | mainTipo.py:7-15 | `NULL` exactly for None and the empty string (floats aside); text quoted with quotes doubled and line breaks escaped, and reading back; other values quoted as their `str()` |
| VehicleTypes.GenerateTipoVeiculosSql | mainTipo.py:17-37 | the statement is `TipoStatement` of the row; the row is only read |
| VehicleTypes.TipoSelection | mainTipo.py:20-30 | the selected entries are those of TIPO, DIARIA, GUINCHO that the row holds, in that order |
| VehicleTypes.TipoColumns | mainTipo.py:29-34 | the columns are those of the present fields in that order, each paired with its field's literal |
| VehicleTypes.TipoEmptyRow | mainTipo.py:36 | a row with none of the fields gives `INSERT INTO tipoVeiculos () VALUES ();` |
| VehicleTypes.TipoSqls | mainTipo.py:53-57 | one statement per row, in row order |

## Left out

- Reading the DBF tables (`dbfread`, MacRoman decoding) is not modelled. Rows are given as sequences of maps.
- Writing the SQL files is not modelled. Neither are the logging and traceback printing, nor `sys.exit(1)`. The passes return the statement lists or the first error.
- The owners file is written before the vehicle pass starts. A vehicle error therefore still leaves that file in place. `Migration.Migrate` returns only the error.
- A builder's re-raise is modelled as the failure it propagates. The error handler at `main.py` line 105 reads `codcli`; an error raised before that assignment would become an `UnboundLocalError` there. No modelled failure arises before that point.
- Floats are carried as their printed text, because Python's float formatting is not modelled. A float is falsy exactly when that text is `0.0` or `-0.0`.
- Values of other kinds are taken to be truthy.
- Dates need a four-digit year and a day of 1 to 31. The length of each month is not checked. Neither `strftime` for years below 1000 nor the `datetime`/`date` distinction is modelled.
- The id map is a map on model values, so Python's dict-key equality across kinds (`1 == True == 1.0`) is not reproduced. A bool and an int client code are different keys here.
- Escaping.EscapeIsNull, Vehicles.ExitDateNull and VehicleTypes.TipoEscapeSpec say nothing about floats, whose text is not modelled.
- Owners.GenerateClientSql writes the merged notes into a `ClientData` object. Nothing else holds the dict that `main` passes to the builder, so aliasing is not modelled.
- `teste.py` is not part of this model. It walks directories, opens tables with `dbfread` and prompts on the console.
