/**
 * The open-invoices listing endpoint: a WHERE clause composed from optional
 * filters, spliced with the row limit into a fixed query template. Filter
 * values are spliced verbatim; nothing is escaped.
 */
module InvoiceList {
  import opened Wrappers
  import opened Text
  import opened Executor
  import opened OpenInvoices

  /** The conditions the WHERE clause can hold. */
  datatype Condition = StatusOpen | ClientIs(clientId: string) | FileIs(fileId: string) | OverdueOnly

  /** The SQL text of one condition. */
  function ConditionSql(c: Condition): string
  {
    match c
    case StatusOpen => OpenStatusCondition
    case ClientIs(id) => "SideCounter = " + id
    case FileIs(id) => "TikCounter = " + id
    case OverdueOnly => "DaysNotPaid > 0"
  }

  /** The fixed position of each kind of condition in the list. */
  function Rank(c: Condition): nat
  {
    match c
    case StatusOpen => 0
    case ClientIs(_) => 1
    case FileIs(_) => 2
    case OverdueOnly => 3
  }

  /** Python truthiness of a query-string argument: present and non-empty. */
  predicate Given(arg: Option<string>)
  {
    arg.Some? && arg.value != ""
  }

  /** The conditions in the order the endpoint appends them. */
  function WherePlan(clientId: Option<string>, fileId: Option<string>, overdue: bool): seq<Condition>
  {
    [StatusOpen]
    + (if Given(clientId) then [ClientIs(clientId.value)] else [])
    + (if Given(fileId) then [FileIs(fileId.value)] else [])
    + (if overdue then [OverdueOnly] else [])
  }

  /**
   * The list starts with the open-status condition, holds each filter exactly
   * when it was given (with the given value), and keeps the fixed order
   * status, client, file, overdue.
   */
  lemma WherePlanShape(clientId: Option<string>, fileId: Option<string>, overdue: bool)
    ensures WherePlan(clientId, fileId, overdue)[0] == StatusOpen
    ensures forall i, j :: 0 <= i < j < |WherePlan(clientId, fileId, overdue)| ==>
      Rank(WherePlan(clientId, fileId, overdue)[i]) < Rank(WherePlan(clientId, fileId, overdue)[j])
    ensures forall id :: ClientIs(id) in WherePlan(clientId, fileId, overdue) <==> Given(clientId) && id == clientId.value
    ensures forall id :: FileIs(id) in WherePlan(clientId, fileId, overdue) <==> Given(fileId) && id == fileId.value
    ensures OverdueOnly in WherePlan(clientId, fileId, overdue) <==> overdue
    ensures |WherePlan(clientId, fileId, overdue)| ==
      1 + (if Given(clientId) then 1 else 0) + (if Given(fileId) then 1 else 0) + (if overdue then 1 else 0)
  {
  }

  function RenderAll(plan: seq<Condition>): (conds: seq<string>)
    ensures |conds| == |plan|
    ensures forall i :: 0 <= i < |plan| ==> conds[i] == ConditionSql(plan[i])
  {
    seq(|plan|, i requires 0 <= i < |plan| => ConditionSql(plan[i]))
  }

  lemma RenderAppend(plan: seq<Condition>, c: Condition)
    ensures RenderAll(plan + [c]) == RenderAll(plan) + [ConditionSql(c)]
  {
  }

  /** `where_conditions`: the status condition, then one append per given filter. */
  method BuildWhereConditions(clientId: Option<string>, fileId: Option<string>, overdue: bool)
    returns (conds: seq<string>)
    ensures conds == RenderAll(WherePlan(clientId, fileId, overdue))
    ensures conds[0] == OpenStatusCondition
  {
    conds := [OpenStatusCondition];
    if Given(clientId) {
      conds := conds + ["SideCounter = " + clientId.value];
    }
    if Given(fileId) {
      conds := conds + ["TikCounter = " + fileId.value];
    }
    if overdue {
      conds := conds + ["DaysNotPaid > 0"];
    }
  }

  /** `" AND ".join(where_conditions)` */
  function WhereClause(clientId: Option<string>, fileId: Option<string>, overdue: bool): string
  {
    Join(RenderAll(WherePlan(clientId, fileId, overdue)), " AND ")
  }

  /** With no filter the clause is the status condition alone. */
  lemma WhereClauseNoFilters(clientId: Option<string>, fileId: Option<string>)
    requires !Given(clientId) && !Given(fileId)
    ensures WhereClause(clientId, fileId, false) == OpenStatusCondition
  {
  }

  /** A client filter adds its condition right after the status condition. */
  lemma WhereClauseClient(clientId: Option<string>)
    requires Given(clientId)
    ensures WhereClause(clientId, None, false) == OpenStatusCondition + " AND SideCounter = " + clientId.value
  {
    JoinAppend([OpenStatusCondition], " AND ", "SideCounter = " + clientId.value);
  }

  /** Joining the rendering of one more condition appends ` AND ` and its text. */
  lemma JoinConditionsAppend(plan: seq<Condition>, c: Condition)
    requires |plan| > 0
    ensures Join(RenderAll(plan + [c]), " AND ") == Join(RenderAll(plan), " AND ") + " AND " + ConditionSql(c)
  {
    RenderAppend(plan, c);
    JoinAppend(RenderAll(plan), " AND ", ConditionSql(c));
  }

  /** A file filter adds its condition after the status and client conditions. */
  lemma WhereClauseFile(clientId: Option<string>, fileId: Option<string>)
    requires Given(fileId)
    ensures WhereClause(clientId, fileId, false) == WhereClause(clientId, None, false) + " AND TikCounter = " + fileId.value
  {
    var before := WherePlan(clientId, None, false);
    var clientPart := if Given(clientId) then [ClientIs(clientId.value)] else [];
    assert before == [StatusOpen] + clientPart;
    assert WherePlan(clientId, fileId, false) == before + [FileIs(fileId.value)];
    JoinConditionsAppend(before, FileIs(fileId.value));
  }

  /** The overdue flag adds its condition last. */
  lemma WhereClauseOverdue(clientId: Option<string>, fileId: Option<string>)
    ensures WhereClause(clientId, fileId, true) == WhereClause(clientId, fileId, false) + " AND DaysNotPaid > 0"
  {
    var before := WherePlan(clientId, fileId, false);
    assert WherePlan(clientId, fileId, true) == before + [OverdueOnly];
    JoinConditionsAppend(before, OverdueOnly);
  }

  /** Client and overdue filters together: status, then client, then overdue, joined by AND. */
  lemma WhereClauseClientOverdue(clientId: Option<string>, fileId: Option<string>)
    requires Given(clientId) && !Given(fileId)
    ensures WhereClause(clientId, fileId, true)
         == OpenStatusCondition + " AND SideCounter = " + clientId.value + " AND DaysNotPaid > 0"
  {
    WhereClauseOverdue(clientId, fileId);
    assert WherePlan(clientId, fileId, false) == WherePlan(clientId, None, false);
    WhereClauseClient(clientId);
  }

  /** `request.args.get('overdue_only', 'false').lower() == 'true'` */
  function OverdueFlag(arg: Option<string>): (r: bool)
    ensures r <==> arg.Some? && Lower(arg.value) == "true"
  {
    Lower(arg.GetOr("false")) == "true"
  }

  /** The `limit` argument: absent, an integer, or text `int()` rejects with the given message. */
  datatype LimitArg = Absent | Number(n: int) | Unparsable(message: string)

  const DefaultLimit: int := 100

  function LimitValue(limit: LimitArg): int
    requires !limit.Unparsable?
  {
    if limit.Number? then limit.n else DefaultLimit
  }

  const ListingHead: string := "\n            SELECT TOP "

  /** From the end of the TOP line to the text before the WHERE clause. */
  const ListingProjection: string :=
    "\n"
    + "                IDinvoice AS InvoiceId,\n"
    + "                Dated AS InvoiceDate,\n"
    + "                SideCounter AS ClientId,\n"
    + "                ClientVisualID AS ClientNumber,\n"
    + "                TikCounter AS FileId,\n"
    + "                TikVisualID AS FileNumber,\n"
    + "                InvStatusDesc AS StatusDescription,\n"
    + "                CategoryDesc AS CategoryDescription,\n"
    + "                Amount AS AmountBeforeVat,\n"
    + "                VatAmount AS VatAmount,\n"
    + "                Amount + VatAmount AS TotalAmount,\n"
    + "                Balance AS BalanceBeforeVat,\n"
    + "                Balance + VatAmount AS TotalBalance,\n"
    + "                PaidIncome AS PaidAmount,\n"
    + "                FutureIncome AS UnpaidAmount,\n"
    + "                DaysNotPaid AS DaysOverdue,\n"
    + "                NotPaidCategory AS OverdueCategory,\n"
    + "                paymentDate AS PaymentDueDate,\n"
    + "                Remark AS Notes,\n"
    + "                tsCreateDate AS CreatedDate\n"
    + "            FROM vwExportToOuterSystems_InvoiceByCategoryAndVat\n"
    + "            WHERE "

  const ListingTail: string := "\n            ORDER BY IDinvoice DESC\n        "

  /** The listing query: `TOP <limit>`, the projection, `WHERE <clause>`, then the ordering. */
  function ListingQuery(limit: int, where: string): string
  {
    ListingHead + IntToString(limit) + ListingProjection + where + ListingTail
  }

  /** The position of the first newline, or the length when there is none. */
  function FirstNewline(s: string): nat
  {
    if |s| == 0 || s[0] == '\n' then 0 else 1 + FirstNewline(s[1..])
  }

  lemma {:induction false} FirstNewlineAfter(d: string, r: string)
    requires forall k :: 0 <= k < |d| ==> d[k] != '\n'
    requires |r| > 0 && r[0] == '\n'
    ensures FirstNewline(d + r) == |d|
  {
    if |d| > 0 {
      assert (d + r)[1..] == d[1..] + r;
      FirstNewlineAfter(d[1..], r);
    }
  }

  /** A digit string followed by text that starts with a newline can be split in only one way. */
  lemma SplitAtNewline(d1: string, r1: string, d2: string, r2: string)
    requires forall k :: 0 <= k < |d1| ==> d1[k] != '\n'
    requires forall k :: 0 <= k < |d2| ==> d2[k] != '\n'
    requires |r1| > 0 && r1[0] == '\n' && |r2| > 0 && r2[0] == '\n'
    requires d1 + r1 == d2 + r2
    ensures d1 == d2 && r1 == r2
  {
    FirstNewlineAfter(d1, r1);
    FirstNewlineAfter(d2, r2);
    assert d1 == (d1 + r1)[..|d1|] && d2 == (d2 + r2)[..|d2|];
    assert r1 == (d1 + r1)[|d1|..] && r2 == (d2 + r2)[|d2|..];
  }

  /** Splicing a number and a clause into a template whose middle starts a new line loses neither. */
  lemma TemplateInjective(head: string, middle: string, tail: string,
                          limit1: int, where1: string, limit2: int, where2: string)
    requires |middle| > 0 && middle[0] == '\n'
    requires head + IntToString(limit1) + middle + where1 + tail == head + IntToString(limit2) + middle + where2 + tail
    ensures limit1 == limit2 && where1 == where2
  {
    var d1, d2 := IntToString(limit1), IntToString(limit2);
    var r1, r2 := middle + where1 + tail, middle + where2 + tail;
    assert head + IntToString(limit1) + middle + where1 + tail == head + (d1 + r1);
    assert head + IntToString(limit2) + middle + where2 + tail == head + (d2 + r2);
    assert d1 + r1 == (head + (d1 + r1))[|head|..];
    assert d2 + r2 == (head + (d2 + r2))[|head|..];
    SplitAtNewline(d1, r1, d2, r2);
    IntToStringInjective(limit1, limit2);
    assert where1 + tail == r1[|middle|..];
    assert where2 + tail == r2[|middle|..];
    assert where1 == (where1 + tail)[..|where1|];
    assert where2 == (where2 + tail)[..|where2|];
  }

  /**
   * The limit and the WHERE clause are both spliced in verbatim: from the
   * query text both can be recovered, so different arguments never give
   * the same query.
   */
  lemma ListingQueryInjective(limit1: int, where1: string, limit2: int, where2: string)
    requires ListingQuery(limit1, where1) == ListingQuery(limit2, where2)
    ensures limit1 == limit2 && where1 == where2
  {
    assert ListingProjection[0] == '\n';
    TemplateInjective(ListingHead, ListingProjection, ListingTail, limit1, where1, limit2, where2);
  }

  /** The query the endpoint runs for valid arguments. */
  function ListingQueryFor(clientId: Option<string>, fileId: Option<string>, overdueOnly: Option<string>, limit: LimitArg): string
    requires !limit.Unparsable?
  {
    ListingQuery(LimitValue(limit), WhereClause(clientId, fileId, OverdueFlag(overdueOnly)))
  }

  /**
   * `get_open_invoices_list`: an unparsable limit fails before any query
   * runs; otherwise the composed query runs once and its rows come back
   * as they are, with `count` their number.
   */
  method ListOpenInvoices(db: Database, clientId: Option<string>, fileId: Option<string>,
                          overdueOnly: Option<string>, limit: LimitArg)
    returns (reply: Reply<Listing>)
    ensures limit.Unparsable? ==> reply == Failure(500, limit.message)
    ensures !limit.Unparsable? && Execute(db, ListingQueryFor(clientId, fileId, overdueOnly, limit)).Error? ==>
      reply == Failure(500, Execute(db, ListingQueryFor(clientId, fileId, overdueOnly, limit)).message)
    ensures !limit.Unparsable? && Execute(db, ListingQueryFor(clientId, fileId, overdueOnly, limit)).Rows? ==>
      reply.Success? && reply.body.data == Execute(db, ListingQueryFor(clientId, fileId, overdueOnly, limit)).rows
    ensures reply.Success? ==> reply.body.count == |reply.body.data|
  {
    var overdue := OverdueFlag(overdueOnly);
    if limit.Unparsable? {
      return Failure(500, limit.message);
    }
    var n := LimitValue(limit);
    var conds := BuildWhereConditions(clientId, fileId, overdue);
    var whereClause := Join(conds, " AND ");
    var query := ListingQuery(n, whereClause);
    var results := ExecuteQuery(db, query);
    match results {
      case Error(m) =>
        reply := Failure(500, m);
      case Rows(rows) =>
        reply := Success(Listing(|rows|, rows));
    }
  }
}
