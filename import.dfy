/**
 * The batch import endpoint: run every named query, shape each result by its
 * name, and isolate failures so one bad query leaves the others intact.
 */
module Import {
  import opened Wrappers
  import opened Dicts
  import opened Executor

  /** What one name contributes to the response: a single record (JSON object) or a row list (JSON array). */
  datatype Shaped = Obj(record: Record) | Arr(rows: seq<Record>)

  /** Summary queries, answered with their first row. */
  const SummaryNames: set<string> := {"billing", "income", "expensesTotal", "workDays"}

  /** Names whose failed query is answered with an empty object. `workDays` is not among them. */
  const FallbackObjectNames: set<string> := {"billing", "income", "expensesTotal"}

  /** The shape of a query that ran: the first record (or `{}`) for a summary name, the full list otherwise. */
  function ShapeRows(name: string, rows: seq<Record>): (s: Shaped)
    ensures s.Obj? <==> name in SummaryNames
  {
    if name in SummaryNames then Obj(if |rows| > 0 then rows[0] else [])
    else Arr(if |rows| > 0 then rows else [])
  }

  /** The value stored for a query that raised. */
  function ShapeFailure(name: string): (s: Shaped)
    ensures s.Obj? <==> name in FallbackObjectNames
  {
    if name !in FallbackObjectNames then Arr([]) else Obj([])
  }

  function ShapeOutcome(name: string, outcome: QueryResult): Shaped
  {
    match outcome
    case Rows(rows) => ShapeRows(name, rows)
    case Error(_) => ShapeFailure(name)
  }

  /**
   * A summary name is always answered with an object, whatever the row
   * count: `{}` for no rows, else the first row, and later rows are dropped.
   */
  lemma SummaryShape(name: string, rows: seq<Record>)
    requires name in SummaryNames
    ensures rows == [] ==> ShapeRows(name, rows) == Obj([])
    ensures rows != [] ==> ShapeRows(name, rows) == Obj(rows[0])
    ensures rows != [] ==> ShapeRows(name, rows) == ShapeRows(name, rows[..1])
  {
  }

  /** Every other name is answered with the full list, in order, including the empty list. */
  lemma DetailShape(name: string, rows: seq<Record>)
    requires name !in SummaryNames
    ensures ShapeRows(name, rows) == Arr(rows)
  {
  }

  /**
   * A failed query is answered with an empty value, and that value is the
   * zero-row success shape for every name except `workDays`, whose failure
   * gives `[]` although its success is always an object.
   */
  lemma FailureShape(name: string)
    ensures ShapeFailure(name) == Obj([]) || ShapeFailure(name) == Arr([])
    ensures ShapeFailure(name) == ShapeRows(name, []) <==> name != "workDays"
  {
  }

  /** The response data for a batch: one entry per name, in the batch's order. */
  function ImportSpec(db: Database, queries: Dict<string>): (out: Dict<Shaped>)
    ensures |out| == |queries|
  {
    seq(|queries|, i requires 0 <= i < |queries| =>
      (queries[i].0, ShapeOutcome(queries[i].0, Execute(db, queries[i].1))))
  }

  /** The response has exactly the batch's key set, with distinct keys. */
  lemma ImportKeys(db: Database, queries: Dict<string>)
    requires Distinct(queries)
    ensures Names(ImportSpec(db, queries)) == Names(queries)
    ensures Keys(ImportSpec(db, queries)) == Keys(queries)
    ensures Distinct(ImportSpec(db, queries))
  {
    var out := ImportSpec(db, queries);
    forall k ensures k in Keys(out) <==> k in Keys(queries) {
      KeysAt(out, k);
      KeysAt(queries, k);
      if k in Keys(out) {
        var j :| 0 <= j < |out| && out[j].0 == k;
        assert queries[j].0 == k;
      }
      if k in Keys(queries) {
        var j :| 0 <= j < |queries| && queries[j].0 == k;
        assert out[j].0 == k;
      }
    }
  }

  /** The entry for a name is the shape of that name's own query outcome. */
  lemma ImportEntry(db: Database, queries: Dict<string>, i: nat)
    requires Distinct(queries) && i < |queries|
    ensures Get(ImportSpec(db, queries), queries[i].0)
         == Some(ShapeOutcome(queries[i].0, Execute(db, queries[i].1)))
  {
    ImportKeys(db, queries);
    GetAt(ImportSpec(db, queries), i);
  }

  /**
   * Failure isolation: the entry for a name depends on nothing but what the
   * data source does with that name's query; any other query may fail or
   * change without affecting it.
   */
  lemma ImportIsolation(db1: Database, db2: Database, queries: Dict<string>, i: nat)
    requires Distinct(queries) && i < |queries|
    requires db1(queries[i].1) == db2(queries[i].1)
    ensures Get(ImportSpec(db1, queries), queries[i].0) == Get(ImportSpec(db2, queries), queries[i].0)
  {
    ImportEntry(db1, queries, i);
    ImportEntry(db2, queries, i);
  }

  /**
   * `import_data`: a missing `queries` field is an empty batch; each query runs
   * once, in order, and the response always reports success.
   */
  method ImportData(db: Database, queries: Option<Dict<string>>) returns (reply: Reply<Dict<Shaped>>)
    requires queries.Some? ==> Distinct(queries.value)
    ensures reply.Success?
    ensures reply.body == ImportSpec(db, queries.GetOr([]))
    ensures queries.None? ==> reply.body == []
    ensures queries.Some? ==> Keys(reply.body) == Keys(queries.value) && Distinct(reply.body)
  {
    var batch := queries.GetOr([]);
    var results: Dict<Shaped> := [];
    for i := 0 to |batch|
      invariant results == ImportSpec(db, batch[..i])
    {
      var (name, sql) := batch[i];
      var outcome := ExecuteQuery(db, sql);
      var shaped := match outcome
        case Rows(rows) => ShapeRows(name, rows)
        case Error(_) => ShapeFailure(name);
      assert name !in Keys(results) by {
        KeysAt(results, name);
        forall j | 0 <= j < i ensures results[j].0 != name {
          assert results[j].0 == batch[j].0;
        }
      }
      results := Put(results, name, shaped);
      assert ImportSpec(db, batch[..i + 1]) == ImportSpec(db, batch[..i]) + [(name, shaped)];
    }
    assert batch[..|batch|] == batch;
    ImportKeys(db, batch);
    reply := Success(results);
  }
}
