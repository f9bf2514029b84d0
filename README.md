# ODCANIT import API: verified model of the query-shaping core

This project models the decision logic of `odcanit_api_server.py`, a small Flask
server that runs SQL against the ODCANIT invoice database and returns JSON to a
finance front end. The database is a parameter of every operation, a function
`Database = string -> DbResult` from query text to what the driver reports: a
failure with its message, or the cursor description plus every fetched row.
Nothing else about the database is modelled.

Modules, one per component:

- `Wrappers`: `Option`.
- `Dicts`: Python's insertion-ordered `dict` as an association list. `Put` is
  `d[k] = v`: it replaces an existing key in place and appends a new key at the end.
  `Zip` is `dict(zip(keys, vals))`.
- `Text`: `" AND ".join`, ASCII `lower()`, and `str(int)` with a parser that reads it back.
- `Executor`: `execute_query`. It turns the cursor into one record per row. It also
  defines the reply envelope `Reply` (success body, or HTTP status plus message).
- `Import`: `import_data`. It shapes each named result as an object or an array,
  and it isolates per-name failures.
- `OpenInvoices`: `get_open_invoices`. It rewrites nulls to 0 in place, and returns an
  all-zero record when no row comes back.
- `InvoiceList`: `get_open_invoices_list`. It builds the WHERE conditions and the
  query template.
- `CustomQuery`: `custom_query` and its empty-query guard.

The loops of the source are methods with loop invariants, each proved against a
specification function:
- `ExecuteQuery`: the `fetchall` loop.
- `ImportData`: the loop over `queries.items()`.
- `NormalizeNulls`: the in-place `data[key] = 0` loop.

`BuildWhereConditions` models the three guarded appends to `where_conditions`. It is
straight-line code, as in the source, and is proved equal to `RenderAll(WherePlan(..))`.

The properties the server promises are lemmas about those specification functions.

The model follows the code as written in these places:

- The comment at lines 104-106 says that a query returning one row comes back as an
  object and one returning more comes back as an array. Lines 107-112 shape by name
  instead. A detail name with one row gives a one-element array, and a summary name
  with many rows gives an object holding its first row (`Import.ShapeRows`,
  `Import.SummaryShape`, `Import.DetailShape`).
- The name set for failures (line 116) omits `workDays`, which is in the success set
  (line 107). A failed `workDays` query therefore yields `[]`, while a successful one
  yields an object. `Import.FailureShape` proves that the failure value equals the
  zero-row success value for every name except `workDays`.
- The docstring at line 220 calls `limit` a maximum number of records. Line 229 accepts
  any integer that parses and splices it verbatim, so zero or a negative number is
  not rejected (`InvoiceList.ListOpenInvoices`).

## Model

| member | source | states |
|---|---|---|
| `Dicts.ZipKeys` | odcanit_api_server.py:61-64 | a row's record has a key exactly for each column name that `zip` pairs with a value |
| `Dicts.ZipLastWins` | odcanit_api_server.py:64 | pairing is by position, and a later duplicate column overwrites an earlier one: a name holds the value of its last occurrence |
| `Dicts.ZipOfDistinct` | odcanit_api_server.py:64 | with distinct column names, the record is exactly the (column, value) pairs in column order |
| `Dicts.Put` | odcanit_api_server.py:64 | dict assignment: the key set gains the key; an existing key keeps its position; a new key is appended at the end |
| `Dicts.Zip` | odcanit_api_server.py:64 | `dict(zip(columns, row))` has distinct keys |
| `Import.ImportSpec` | odcanit_api_server.py:97-116 | the batch result has one entry per query, in batch order |
| `OpenInvoices.ZeroNulls` | odcanit_api_server.py:183-185 | rewriting nulls to 0 keeps the record's length |
| `Executor.ExecuteQuery` | odcanit_api_server.py:52-73 | exactly one record per fetched row, in fetch order, each the zip of the columns with that row; a driver failure is re-raised with its message; a statement without a result set fails |
| `Executor.ExecuteRecords` | odcanit_api_server.py:61-64 | every materialised record has distinct keys, and maps column `c` to the row's value at `c` unless a later column repeats the name |
| `Import.ShapeRows` | odcanit_api_server.py:107-112 | a query that ran is answered with an object exactly when its name is one of billing, income, expensesTotal, workDays |
| `Import.SummaryShape` | odcanit_api_server.py:107-109 | a summary name gives `{}` for no rows and the first row otherwise; rows after the first are discarded |
| `Import.DetailShape` | odcanit_api_server.py:110-112 | any other name gives the full row list, `[]` for no rows |
| `Import.ShapeFailure` | odcanit_api_server.py:116 | a failed query is answered with an object exactly when its name is billing, income or expensesTotal |
| `Import.FailureShape` | odcanit_api_server.py:107-116 | a failure always gives `{}` or `[]`; this equals the zero-row success shape for every name except workDays |
| `Import.ImportKeys` | odcanit_api_server.py:97-116 | the response data has exactly the batch's names, in batch order, each once |
| `Import.ImportEntry` | odcanit_api_server.py:100-116 | the entry for a name is the shape of that name's own query outcome |
| `Import.ImportIsolation` | odcanit_api_server.py:101-116 | an entry depends only on what the data source does with that name's query; other queries failing or changing leave it unchanged |
| `Import.ImportData` | odcanit_api_server.py:93-121 | the batch endpoint always reports success; a missing `queries` gives `{}`; otherwise the data has the batch's key set with each entry shaped from its own outcome |
| `OpenInvoices.ZeroNullsAt` | odcanit_api_server.py:183-185 | field by field: the key is kept, a null becomes 0, any other value is unchanged |
| `OpenInvoices.ZeroNullsKeysAndNoNulls` | odcanit_api_server.py:181-185 | normalising keeps the key set and key order, and leaves no null field |
| `OpenInvoices.ZeroNullsNoOp` | odcanit_api_server.py:183-185 | a record without nulls is left unchanged |
| `OpenInvoices.ZeroNullsIdempotent` | odcanit_api_server.py:183-185 | normalising twice is the same as normalising once |
| `OpenInvoices.NormalizeNulls` | odcanit_api_server.py:181-185 | the in-place loop over the first row's keys computes exactly the normalised record |
| `OpenInvoices.EmptySummaryFields` | odcanit_api_server.py:191-202 | the no-row answer has exactly the six keys TotalOpenInvoices through AvgDaysOverdue, in order, each 0 |
| `OpenInvoices.GetOpenInvoices` | odcanit_api_server.py:165-208 | a failure gives 500 with its message; a first row comes back with nulls zeroed; no row gives the all-zero record; a success never holds a null |
| `InvoiceList.WherePlanShape` | odcanit_api_server.py:232-239 | the conditions start with open status; each filter is present exactly when given, with its value; order is status, client, file, overdue; the list length is 1 plus the number of given filters |
| `InvoiceList.BuildWhereConditions` | odcanit_api_server.py:232-239 | the appends produce the rendered condition list, starting with the open-status condition |
| `InvoiceList.WhereClauseNoFilters` | odcanit_api_server.py:232-241 | with no filter given, the clause is the status condition alone |
| `InvoiceList.WhereClauseClient` | odcanit_api_server.py:234-241 | a client filter gives `status AND SideCounter = <client_id>`, with the id spliced verbatim |
| `InvoiceList.WhereClauseFile` | odcanit_api_server.py:236-241 | a file filter appends ` AND TikCounter = <file_id>` after the status and client conditions |
| `InvoiceList.WhereClauseOverdue` | odcanit_api_server.py:238-241 | the overdue flag appends ` AND DaysNotPaid > 0` last |
| `InvoiceList.WhereClauseClientOverdue` | odcanit_api_server.py:232-241 | client and overdue together give exactly `status AND SideCounter = <id> AND DaysNotPaid > 0` |
| `InvoiceList.OverdueFlag` | odcanit_api_server.py:228 | the flag is set exactly when the argument is present and lower-cases to `true`; absent means `false` |
| `InvoiceList.ListingQueryInjective` | odcanit_api_server.py:243-268 | the limit after `TOP` and the clause after `WHERE` are spliced verbatim: the query text determines both |
| `InvoiceList.ListOpenInvoices` | odcanit_api_server.py:224-282 | an unparsable limit fails with 500 before any query runs; otherwise the composed query (limit defaults to 100) runs once; its rows come back unchanged with `count` equal to their number, or a failure gives 500 with its message |
| `CustomQuery.RunCustomQuery` | odcanit_api_server.py:295-317 | a missing or empty query gives 400 whatever the database is, so it is never consulted; otherwise a failure gives 500 with its message and a success returns the rows with `count` equal to their number |
| `Text.JoinAppend` | odcanit_api_server.py:241 | joining one more condition appends ` AND ` and that condition |
| `Text.IntToStringRoundTrip` | odcanit_api_server.py:244 | the decimal text spliced after `TOP` reads back as the limit |

## Left out

- `get_connection`, the connection string and `ODCANIT_CONFIG` (lines 25-49) are driver I/O and fixed credentials. The database is only the `Database` parameter.
- Connection closing in `finally` (lines 70-72) and `test_connection` (lines 130-144) are resource handling and a bare round trip, with no effect on results.
- Flask routing, body decoding, `jsonify`, CORS and the start-up banner (lines 16-22, 320-356) are transport. A body that is not JSON, a `queries` or `query` field that is not a string map or string, and JSON key order are not modelled.
- SQL semantics (the aggregates of lines 166-176, the listing projection, filtering and `TOP`) are evaluated by the database. Query text is an opaque string, and returned values are opaque `Value`s. Decimal, float and timestamp values are carried as `Other`.
- `print` logging (lines 48, 68, 115) has no effect on results.
- A query text is assumed to give the same driver result wherever it appears in a batch. Changes to the database between the queries of one batch are not modelled.
- The driver's exception text is an opaque message string. Only the `TypeError` for a statement without a result set has its text fixed.
- Python's `int()` parsing of `limit` (line 229) is library behaviour. The argument arrives already classified as absent, an integer, or unparsable with the `ValueError` text.
- InvoiceList.OverdueFlag: models only ASCII lower-casing, not the full Unicode `str.lower()` of line 228.
