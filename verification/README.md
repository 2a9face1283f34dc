# Inquéritos: bulk import, date parsing and sort allow-list

A Dafny model of the core of `crud_inqueritos.py`, a small Flask application that keeps a PostgreSQL table of police investigation records (`inqueritos`). The model covers four parts:

- **`formatar_data`** turns a `dd/mm/yyyy` text into a calendar date. It gives `None` for the empty text, for text that does not match, and for a day that does not exist.
- **The year of an electronic case number.** This is the four digits of the leftmost `.dddd.` in the number, or 0 when there is none.
- **`inserir_em_massa`** is the bulk import of pasted tab-separated text:
  - it discards the header line;
  - it skips rows with fewer than seven fields;
  - it builds one record per remaining row from fixed field positions and inserts it;
  - it counts inserted rows and failed rows;
  - it commits once at the end, and a fatal failure rolls back the whole batch.
- **The sort allow-list of `listar_inqueritos`.** An unknown sort column becomes `ano`. Any direction other than exactly `ASC` or `DESC` becomes `DESC`.

The database table is a `seq<Inquerito>` field of the class `BulkImport.Banco`, and the import is a method on it with a loop. Three things the program gets from its environment are parameters of that method:

- whether `conectar()` returned a connection;
- which data rows' `INSERT` raises;
- whether the batch fails fatally.

Modules:

- `Wrappers`: `Option`.
- `Text`: ASCII digits, splitting on one character and its inverse `Join`, and how the import reads its input. This covers `readline` for the header, line iteration, and the tab-delimited row split.
- `Dates`: `formatar_data`.
- `CaseNumber`: the year taken from the electronic number.
- `Listing`: the sort-parameter allow-list.
- `BulkImport`: the record, the specification of a whole import (`Apurar`, `Importacao`), and `Banco.InserirEmMassa`.

`formatar_data` calls Python's `datetime.strptime(s, '%d/%m/%Y')`. The model follows that parser's patterns:

- the day is `3[01]`, `[12]` and a digit, `0[1-9]`, `[1-9]`, or a space and `[1-9]`;
- the month is `1[0-2]`, `0[1-9]` or `[1-9]`;
- the year is exactly four digits, and the whole text must match;
- the date must then exist: a year from 1 to 9999 and Gregorian leap years.

None of these patterns contains a slash. So the match is the same as splitting on `/` into exactly three pieces and checking each piece.

`inserir_em_massa` in this file has no duplicate check, no ISO-date fallback and no default status, and it ignores column 1:

- the year comes only from the electronic number;
- column 1 is ignored;
- a blank status is stored as given.

## Model

| member | source | states |
|---|---|---|
| `Dates.FormatarData` | crud_inqueritos.py:105-111 | the empty text gives `None`; every date returned exists on the calendar |
| `Dates.FormatarDataOfTokens` | crud_inqueritos.py:108-111 | a day token, `/`, a month token, `/` and four digits are read as the date they spell when it exists, and as `None` otherwise |
| `Dates.FormatarDataOnlyTokens` | crud_inqueritos.py:108-111 | every accepted text is exactly day token `/` month token `/` four-digit year of the returned date |
| `Dates.FormatarDataOfFormatDate` | crud_inqueritos.py:109 | the zero-padded `dd/mm/yyyy` spelling of any real date is read back as that date (round trip) |
| `Dates.FormatarDataNeedsSlash` | crud_inqueritos.py:108-111 | a text without `/`, such as an ISO `yyyy-mm-dd` date, gives `None` |
| `Dates.FormatarDataLeapDay` | crud_inqueritos.py:109-111 | for every year from 1 to 9999, `29/02/yyyy` is read exactly when the year is a Gregorian leap year, and then as that leap day |
| `Dates.FormatarDataReadsLastDayOfYear` | crud_inqueritos.py:109 | `31/12/2024` is 2024-12-31 |
| `Dates.FormatarDataReadsLeapDay` | crud_inqueritos.py:109 | `29/02/2024` is read |
| `Dates.FormatarDataRejectsMissingLeapDay` | crud_inqueritos.py:109-111 | `29/02/2023` gives `None` |
| `Dates.FormatarDataRejectsFebruary31` | crud_inqueritos.py:109-111 | `31/02/2024` gives `None` |
| `Dates.FormatarDataRejectsIso` | crud_inqueritos.py:109-111 | `2024-12-31` gives `None` |
| `CaseNumber.DottedYearAt` | crud_inqueritos.py:221 | a match of `\.(\d{4})\.` starts at the position: a dot, four digits, a dot (its properties are stated by the rows below) |
| `CaseNumber.FirstDottedYear` | crud_inqueritos.py:221 | the position found holds `.dddd.` and no earlier position does; `None` means no position does |
| `CaseNumber.AnoDoNumero` | crud_inqueritos.py:221-222 | the year is between 0 and 9999 |
| `CaseNumber.AnoDoNumeroIsLeftmostMatch` | crud_inqueritos.py:221-222 | the year is the value of the four digits of the leftmost `.dddd.`, and 0 when there is no match |
| `CaseNumber.AnoDoNumeroAfterDotFreePrefix` | crud_inqueritos.py:221-222 | with no dot before it, the first `.dddd.` gives the year whatever follows |
| `CaseNumber.AnoDoNumeroOfCnjNumber` | crud_inqueritos.py:221-222 | `1500123-45.2023.8.26.0050` has year 2023 |
| `CaseNumber.AnoDoNumeroWithoutDots` | crud_inqueritos.py:222 | a number without dots has year 0 |
| `Listing.Coluna` | crud_inqueritos.py:139-142 | the column is always in the allow-list; a listed key is kept, any other becomes `ano` |
| `Listing.Direcao` | crud_inqueritos.py:140-143 | the direction is always `ASC` or `DESC`; either is kept, anything else becomes `DESC` |
| `Listing.ConsultaListagem` | crud_inqueritos.py:139-147 | the query text is one of the allowed column/direction combinations, whatever the request says |
| `Listing.OrderBy` | crud_inqueritos.py:147 | the query text for a column and a direction (its properties are stated by `Listing.OrderByIsInjective` and `Listing.ConsultaListagem`) |
| `Listing.OrderByIsInjective` | crud_inqueritos.py:147 | for allowed columns and directions, two query texts are equal exactly when they were built from the same column and the same direction |
| `Listing.ConsultasPermitidasAreSix` | crud_inqueritos.py:139-147 | exactly six different query texts can be built |
| `Listing.DirecaoIsCaseSensitive` | crud_inqueritos.py:140-143 | the direction test is exact: `asc` becomes `DESC` |
| `Text.AfterFirstLine` | crud_inqueritos.py:205-206 | what remains after `readline` is never longer than the input |
| `Text.AfterFirstLineSkipsHeader` | crud_inqueritos.py:205-206 | a header line is consumed through its line break, whatever it says |
| `Text.AfterFirstLineOfSingleLine` | crud_inqueritos.py:205-207 | text without a line break leaves nothing to read |
| `Text.Lines` | crud_inqueritos.py:205-215 | iteration yields no line exactly when the text after the header is empty |
| `Text.LinesOfUnlines` | crud_inqueritos.py:205-215 | iterating the text of terminated lines yields exactly those lines |
| `Text.LinesOfUnlinesThenLast` | crud_inqueritos.py:205-215 | when the last line has no line break after it, iteration yields the terminated lines and then that last line |
| `Text.SplitOn` | crud_inqueritos.py:207 | splitting gives at least one piece |
| `Text.JoinSplitOn` | crud_inqueritos.py:207 | the pieces hold no separator, and joining them gives back the text |
| `Text.SplitJoin` | crud_inqueritos.py:207 | splitting undoes joining for pieces without the separator |
| `Text.Fields` | crud_inqueritos.py:207-216 | a line gives no fields exactly when it is empty |
| `Text.JoinFields` | crud_inqueritos.py:207 | the fields of a non-empty line hold no tab and join back into the line |
| `Text.FieldsOfJoin` | crud_inqueritos.py:207 | a non-empty line written as tab-separated fields is read back as those fields |
| `BulkImport.LinhaAceita` | crud_inqueritos.py:216 | a row passes the guard exactly when it has at least 7 fields (the empty-row test adds nothing) |
| `BulkImport.RegistroDaLinha` | crud_inqueritos.py:219-228 | the record built from a row keeps field 0 as the electronic number, leaves control and process numbers unset, carries that number's year and holds only real dates |
| `BulkImport.LinhasDeDadosOfText` | crud_inqueritos.py:205-215 | the rows of a pasted text are the tab-split fields of each line after the header, in order, whether or not the last line ends in a line break |
| `BulkImport.Aceitas` | crud_inqueritos.py:216 | the number of rows passing the guard is at most the number of rows |
| `BulkImport.Importacao` | crud_inqueritos.py:215-233 | for a whole import, inserted plus errors equals the number of data rows passing the guard |
| `BulkImport.Apurar` | crud_inqueritos.py:215-233 | the rows appended are as many as the inserted count, and inserted plus errors never exceed the rows handled |
| `BulkImport.CountersMatchAcceptedRows` | crud_inqueritos.py:216-233 | every row with at least 7 fields is counted exactly once, as inserted or as an error; skipped rows are counted as neither |
| `BulkImport.CountersBoundedByDataLines` | crud_inqueritos.py:202-233 | for a whole import, inserted plus errors is at most the number of data rows |
| `BulkImport.NoFailuresNoErrors` | crud_inqueritos.py:215-233 | when no insert raises, there are no errors and every accepted row is inserted |
| `BulkImport.SingleLineImportsNothing` | crud_inqueritos.py:205-207 | input without a line break is all header: nothing is appended or counted |
| `BulkImport.HeaderIsIgnored` | crud_inqueritos.py:205-206 | two imports that differ only in the header line import the same records and counts |
| `BulkImport.FieldOneIsIgnored` | crud_inqueritos.py:219-228 | changing field 1 does not change the record |
| `BulkImport.ExtraFieldsAreIgnored` | crud_inqueritos.py:216-228 | fields after the seventh do not change the record |
| `BulkImport.ImportedRecordsAreWellFormed` | crud_inqueritos.py:211-230 | every appended record has no control or process number, carries the year of its own electronic number, and holds only real dates |
| `BulkImport.OrigensAreInsertedLines` | crud_inqueritos.py:215-231 | the inserted rows' indexes increase, and they are exactly the accepted rows whose insert succeeded |
| `BulkImport.AppendsAcceptedLinesInOrder` | crud_inqueritos.py:215-231 | the k-th appended record is the record of the k-th such row (fields 0, 2, 3, 4, 5, 6 and the year) |
| `BulkImport.Banco.InserirEmMassa` | crud_inqueritos.py:199-247 | no connection: returns 0 and changes nothing; fatal failure: rolls back, returns 0 and reports the fatal error; otherwise appends exactly the specified records after the old rows, returns the inserted count, the table grows by that count, and the notice is a warning exactly when some row failed |

## Left out

- Flask routes, templates, redirects and the `flash` calls. The notice `inserir_em_massa` flashes is returned as a value (`Aviso`). The `importar_massa` route's check for empty input is not part of this model.
- Login: `User`, `USERS`, `load_user`, `login` and `logout`. These are session handling around a fixed credential.
- `conectar` and the environment configuration. Whether a connection was obtained is the `conectado` parameter.
- `criar_tabela_se_nao_existe`. This is only the table's DDL.
- The single-statement wrappers `criar_inquerito_manual`, `buscar_inquerito`, `atualizar_inquerito`, `deletar_inquerito` and `contar_total_registros`. Each is one SQL statement.
- The SQL execution in `listar_inqueritos`: its `ORDER BY` collation, NULL placement, and its `[]` result without a connection. Only the text of the query is modelled.
- The generated `id` column (`SERIAL`). A record in the model has no id.
- PostgreSQL's aborted-transaction behaviour. With a real database, a failed `INSERT` makes the later statements of the batch fail too, and the final commit then discards the batch. In the model a failed insert only fails its own row.
- Where a fatal failure happens. It is one flag, `falhaFatal`. Any such failure (cursor, reader or commit) has the same effect: rollback, 0, and the fatal notice.
- Which rows fail is given as a set of data-row indexes (`falhas`). The exception message and the `print` to the log are not modelled.
- CSV quoting, escaping and `\r\n` handling. A data line is split on `\t`, and an empty line gives no fields, as the reader gives them.
- Unicode digits. `\d` in the regular expressions is modelled as ASCII `0`-`9` only.
