/**
 * The query executor: run one SQL text against the data source and turn the
 * driver's cursor (column descriptions plus fetched rows) into one record
 * per row. The data source itself is a parameter: a function from query text
 * to what the driver reports.
 */
module Executor {
  import opened Wrappers
  import opened Dicts

  /** A column value as the driver hands it over. Decimals, floats and timestamps are carried as `Other`. */
  datatype Value = Null | Int(i: int) | Str(s: string) | Bool(b: bool) | Other(repr: string)

  /** One result row: column name to value, in column order. */
  type Record = Dict<Value>

  /**
   * What the driver reports for one statement: a failure (connection or
   * execution) with its message, or the cursor's description (absent for a
   * statement that produces no result set) and every fetched row.
   */
  datatype DbResult =
    | Failed(message: string)
    | Executed(description: Option<seq<string>>, fetched: seq<seq<Value>>)

  type Database = string -> DbResult

  /** What `execute_query` returns or raises. */
  datatype QueryResult = Rows(rows: seq<Record>) | Error(message: string)

  /** Iterating over a missing cursor description raises this `TypeError`. */
  const NoResultSetMessage: string := "'NoneType' object is not iterable"

  /** The JSON envelope of every endpoint: a body on success, or an HTTP status and message. */
  datatype Reply<T> = Success(body: T) | Failure(status: int, error: string)

  /** `{'count': len(results), 'data': results}` */
  datatype Listing = Listing(count: int, data: seq<Record>)

  /** The records `execute_query` materialises for one statement. */
  function Execute(db: Database, query: string): QueryResult
  {
    match db(query)
    case Failed(m) => Error(m)
    case Executed(None, _) => Error(NoResultSetMessage)
    case Executed(Some(columns), fetched) =>
      Rows(seq(|fetched|, i requires 0 <= i < |fetched| => Zip(columns, fetched[i])))
  }

  /**
   * `execute_query`: exactly one record per fetched row, in fetch order, each
   * pairing the column names with that row's values; every driver failure is
   * passed on with its message.
   */
  method ExecuteQuery(db: Database, query: string) returns (r: QueryResult)
    ensures r == Execute(db, query)
    ensures db(query).Failed? ==> r == Error(db(query).message)
    ensures db(query).Executed? && db(query).description.None? ==> r == Error(NoResultSetMessage)
    ensures db(query).Executed? && db(query).description.Some? ==>
      r.Rows? && |r.rows| == |db(query).fetched| &&
      forall i :: 0 <= i < |r.rows| ==> r.rows[i] == Zip(db(query).description.value, db(query).fetched[i])
  {
    var outcome := db(query);
    match outcome {
      case Failed(m) =>
        r := Error(m);
      case Executed(None, _) =>
        r := Error(NoResultSetMessage);
      case Executed(Some(columns), fetched) =>
        var results: seq<Record> := [];
        for i := 0 to |fetched|
          invariant |results| == i
          invariant forall j :: 0 <= j < i ==> results[j] == Zip(columns, fetched[j])
        {
          results := results + [Zip(columns, fetched[i])];
        }
        r := Rows(results);
    }
  }

  /**
   * Every materialised record has the keys of the columns, distinct, each
   * holding the value of its last occurrence in the row.
   */
  lemma ExecuteRecords(db: Database, query: string, i: nat, c: nat)
    requires db(query).Executed? && db(query).description.Some?
    requires i < |db(query).fetched|
    requires c < |db(query).description.value| && c < |db(query).fetched[i]|
    requires forall j :: c < j < |db(query).description.value| && j < |db(query).fetched[i]| ==>
      db(query).description.value[j] != db(query).description.value[c]
    ensures Execute(db, query).Rows?
    ensures Distinct(Execute(db, query).rows[i])
    ensures Get(Execute(db, query).rows[i], db(query).description.value[c]) == Some(db(query).fetched[i][c])
  {
    ZipLastWins(db(query).description.value, db(query).fetched[i], c);
  }
}
