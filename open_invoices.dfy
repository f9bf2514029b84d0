/**
 * The open-invoices summary endpoint: one fixed aggregate query whose first
 * row is returned with every null field replaced by zero, or an all-zero
 * record when the query returns no row.
 */
module OpenInvoices {
  import opened Dicts
  import opened Executor

  /** The status label of an open invoice, "פתוח". */
  const OpenLabel: string := "\U{05E4}\U{05EA}\U{05D5}\U{05D7}"

  /** The condition that selects open invoices, shared with the listing endpoint. */
  const OpenStatusCondition: string := "InvStatusDesc = N'" + OpenLabel + "'"

  /** The aggregate query text, whitespace included. */
  const SummaryQuery: string :=
    "\n            SELECT \n"
    + "                COUNT(DISTINCT IDinvoice) AS TotalOpenInvoices,\n"
    + "                SUM(Balance) AS TotalBalance,\n"
    + "                SUM(VatAmount) AS TotalVat,\n"
    + "                SUM(Balance) + SUM(VatAmount) AS TotalOutstandingBalance,\n"
    + "                SUM(PaidIncome) AS TotalPaid,\n"
    + "                AVG(DaysNotPaid) AS AvgDaysOverdue\n"
    + "            FROM vwExportToOuterSystems_InvoiceByCategoryAndVat\n"
    + "            WHERE " + OpenStatusCondition + "\n"
    + "        "

  /** The six summary fields, in response order. */
  const SummaryFields: seq<string> :=
    ["TotalOpenInvoices", "TotalBalance", "TotalVat", "TotalOutstandingBalance", "TotalPaid", "AvgDaysOverdue"]

  /** The answer when the aggregate returns no row. */
  const EmptySummary: Record :=
    seq(|SummaryFields|, i requires 0 <= i < |SummaryFields| => (SummaryFields[i], Int(0)))

  function NullToZero(v: Value): Value
  {
    if v.Null? then Int(0) else v
  }

  /** The record with every `None` field rewritten to `0`. */
  function ZeroNulls(rec: Record): (r: Record)
    ensures |r| == |rec|
  {
    if |rec| == 0 then [] else [(rec[0].0, NullToZero(rec[0].1))] + ZeroNulls(rec[1..])
  }

  predicate NoNulls(rec: Record)
  {
    forall i :: 0 <= i < |rec| ==> !rec[i].1.Null?
  }

  /** Field by field: same key, a null value becomes 0, any other value is kept. */
  lemma {:induction false} ZeroNullsAt(rec: Record, i: nat)
    requires i < |rec|
    ensures ZeroNulls(rec)[i].0 == rec[i].0
    ensures rec[i].1.Null? ==> ZeroNulls(rec)[i].1 == Int(0)
    ensures !rec[i].1.Null? ==> ZeroNulls(rec)[i].1 == rec[i].1
  {
    if i > 0 {
      ZeroNullsAt(rec[1..], i - 1);
    }
  }

  /** Normalising keeps the key set and key order, and leaves no null behind. */
  lemma ZeroNullsKeysAndNoNulls(rec: Record)
    ensures Names(ZeroNulls(rec)) == Names(rec)
    ensures Keys(ZeroNulls(rec)) == Keys(rec)
    ensures NoNulls(ZeroNulls(rec))
  {
    forall i | 0 <= i < |rec| ensures ZeroNulls(rec)[i].0 == rec[i].0 && !ZeroNulls(rec)[i].1.Null? {
      ZeroNullsAt(rec, i);
    }
    forall k ensures k in Keys(ZeroNulls(rec)) <==> k in Keys(rec) {
      KeysAt(ZeroNulls(rec), k);
      KeysAt(rec, k);
      if k in Keys(rec) {
        var j :| 0 <= j < |rec| && rec[j].0 == k;
        assert ZeroNulls(rec)[j].0 == k;
      }
    }
  }

  /** A record without nulls is left as it is. */
  lemma {:induction false} ZeroNullsNoOp(rec: Record)
    requires NoNulls(rec)
    ensures ZeroNulls(rec) == rec
  {
    if |rec| > 0 {
      assert NoNulls(rec[1..]) by {
        forall i | 0 <= i < |rec[1..]| ensures !rec[1..][i].1.Null? { assert rec[1..][i] == rec[i + 1]; }
      }
      ZeroNullsNoOp(rec[1..]);
      assert rec == [rec[0]] + rec[1..];
    }
  }

  /** Normalising twice is normalising once. */
  lemma ZeroNullsIdempotent(rec: Record)
    ensures ZeroNulls(ZeroNulls(rec)) == ZeroNulls(rec)
  {
    ZeroNullsKeysAndNoNulls(rec);
    ZeroNullsNoOp(ZeroNulls(rec));
  }

  /** The in-place loop over the keys of the first row: each `None` is assigned `0`. */
  method NormalizeNulls(rec: Record) returns (data: Record)
    requires Distinct(rec)
    ensures data == ZeroNulls(rec)
  {
    data := rec;
    for i := 0 to |rec|
      invariant |data| == |rec|
      invariant forall j :: 0 <= j < i ==> data[j] == (rec[j].0, NullToZero(rec[j].1))
      invariant forall j :: i <= j < |rec| ==> data[j] == rec[j]
      invariant Names(data) == Names(rec)
    {
      var key := data[i].0;
      if data[i].1.Null? {
        assert Distinct(data) by {
          forall a, b | 0 <= a < b < |data| ensures data[a].0 != data[b].0 {
            assert Names(data)[a] == Names(rec)[a] && Names(data)[b] == Names(rec)[b];
          }
        }
        PutAt(data, i, Int(0));
        data := Put(data, key, Int(0));
        assert Names(data) == Names(rec) by {
          forall j | 0 <= j < |data| ensures Names(data)[j] == Names(rec)[j] { }
        }
      }
    }
    forall j | 0 <= j < |rec| ensures data[j] == ZeroNulls(rec)[j] {
      ZeroNullsAt(rec, j);
    }
  }

  /** The all-zero answer: exactly the six summary fields, in order, each `0`. */
  lemma EmptySummaryFields()
    ensures Names(EmptySummary) == SummaryFields
    ensures forall i :: 0 <= i < |EmptySummary| ==> EmptySummary[i].1 == Int(0)
    ensures Distinct(EmptySummary) && NoNulls(EmptySummary)
  {
  }

  /**
   * `get_open_invoices`: a driver failure is reported with its message; a
   * returned row comes back with nulls zeroed; no row gives the all-zero
   * record. Either way the caller never sees a null field.
   */
  method GetOpenInvoices(db: Database) returns (reply: Reply<Record>)
    ensures Execute(db, SummaryQuery).Error? ==> reply == Failure(500, Execute(db, SummaryQuery).message)
    ensures Execute(db, SummaryQuery).Rows? && |Execute(db, SummaryQuery).rows| > 0 ==>
      reply == Success(ZeroNulls(Execute(db, SummaryQuery).rows[0]))
    ensures Execute(db, SummaryQuery).Rows? && |Execute(db, SummaryQuery).rows| == 0 ==>
      reply == Success(EmptySummary)
    ensures reply.Success? ==> NoNulls(reply.body)
  {
    var results := ExecuteQuery(db, SummaryQuery);
    match results {
      case Error(m) =>
        reply := Failure(500, m);
      case Rows(rows) =>
        if |rows| > 0 {
          var data := NormalizeNulls(rows[0]);
          ZeroNullsKeysAndNoNulls(rows[0]);
          reply := Success(data);
        } else {
          reply := Success(EmptySummary);
        }
    }
  }
}
