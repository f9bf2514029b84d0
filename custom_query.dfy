/** The custom query endpoint: run caller-supplied SQL text as it is, after a presence check. */
module CustomQuery {
  import opened Wrappers
  import opened Executor

  /** The validation message, "חסרה שאילתה" ("query missing"). */
  const MissingQueryMessage: string :=
    "\U{05D7}\U{05E1}\U{05E8}\U{05D4} \U{05E9}\U{05D0}\U{05D9}\U{05DC}\U{05EA}\U{05D4}"

  /** `not query` for the `query` field of the body: absent or empty. */
  predicate Missing(query: Option<string>)
  {
    query.None? || query.value == ""
  }

  /**
   * `custom_query`: a missing or empty query is rejected with 400 whatever
   * the data source would do, since it is never consulted; any other text
   * runs once, a driver failure is reported with 500 and its message, and
   * on success `count` is the number of rows returned.
   */
  method RunCustomQuery(db: Database, query: Option<string>) returns (reply: Reply<Listing>)
    ensures Missing(query) ==> reply == Failure(400, MissingQueryMessage)
    ensures !Missing(query) && Execute(db, query.value).Error? ==>
      reply == Failure(500, Execute(db, query.value).message)
    ensures !Missing(query) && Execute(db, query.value).Rows? ==>
      reply == Success(Listing(|Execute(db, query.value).rows|, Execute(db, query.value).rows))
    ensures reply.Success? ==> reply.body.count == |reply.body.data|
  {
    if Missing(query) {
      return Failure(400, MissingQueryMessage);
    }
    var results := ExecuteQuery(db, query.value);
    match results {
      case Error(m) =>
        reply := Failure(500, m);
      case Rows(rows) =>
        reply := Success(Listing(|rows|, rows));
    }
  }
}
