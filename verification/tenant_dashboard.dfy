/** The tenant's own dashboard: the bearer-token gate every handler starts with, the
    current lease shown by the overview, the next payment and its urgency, the recent
    payments, and the rolling month windows of expenses and utility usage. Each
    handler's query result is an input (its rows in the order the query returns them);
    the clock is read as parameters. */
module TenantDashboard {
  import opened Common
  import opened Sorting
  import opened Store
  import Auth

  // ---------------------------------------------------------------------------
  // getTenantIdFromToken

  /** The second space-separated piece of the `Authorization` header, when the header
      is present and that piece exists and is not empty. */
  function BearerToken(authorization: Option<string>): (r: Option<string>)
    ensures r.Some? <==> authorization.Some? && |Split(authorization.value)| >= 2 && Split(authorization.value)[1] != ""
    ensures r.Some? ==> r.value == Split(authorization.value)[1] && ' ' !in r.value
  {
    if authorization.None? then None
    else
      var pieces := Split(authorization.value);
      if |pieces| >= 2 && pieces[1] != "" then Some(pieces[1]) else None
  }

  /** `getTenantIdFromToken`: no token, a token `verify` rejects (None stands for the
      thrown error) and a token whose claim is not a tenant's all give no id;
      otherwise the claim's id. */
  function TenantIdFromToken(authorization: Option<string>, verify: string -> Option<Auth.Claim>): (r: Option<int>)
    ensures r.Some? <==> && BearerToken(authorization).Some?
                         && verify(BearerToken(authorization).value).Some?
                         && verify(BearerToken(authorization).value).value.role == Auth.TenantRole
    ensures r.Some? ==> r.value == verify(BearerToken(authorization).value).value.id
  {
    match BearerToken(authorization)
    case None => None
    case Some(token) =>
      match verify(token)
      case None => None
      case Some(claim) => if claim.role != Auth.TenantRole then None else Some(claim.id)
  }

  /** The handlers' `if (!tenantId)`: no id, or the falsy id 0, is 401. */
  function Authorize(tenantId: Option<int>): (r: Result<int>)
    ensures r.Ok? <==> tenantId.Some? && tenantId.value != 0
    ensures r.Ok? ==> r.value == tenantId.value
    ensures r.Err? ==> r.error == Error(401, "Unauthorized")
  {
    if tenantId.None? || tenantId.value == 0 then Err(Error(401, "Unauthorized")) else Ok(tenantId.value)
  }

  /** The token of a tenant login, sent as `Bearer <token>`, passes the gate with the
      tenant's id, while a landlord login's token does not, whatever its id. */
  lemma TenantSessionPassesGate(id: int, t: Tenant, password: Option<string>, l: Landlord, lp: string,
                                matches: (string, string) -> bool, token: string,
                                verify: string -> Option<Auth.Claim>)
    requires token != "" && ' ' !in token
    ensures Auth.TenantDecision(id, t, password).Ok? && verify(token) == Some(Auth.TenantDecision(id, t, password).value.claim)
      ==> TenantIdFromToken(Some("Bearer " + token), verify) == Some(id)
    ensures Auth.LandlordDecision(id, l, lp, matches).Ok?
            && verify(token) == Some(Auth.LandlordDecision(id, l, lp, matches).value.claim)
      ==> TenantIdFromToken(Some("Bearer " + token), verify) == None
  {
    SplitAfterWord("Bearer", token);
    SplitWithoutSpace(token);
    assert "Bearer " + token == "Bearer" + " " + token;
  }

  // ---------------------------------------------------------------------------
  // `ORDER BY <column> LIMIT 1`

  /** The first of the kept rows with the smallest key (a descending column is
      selected on its negation). */
  function FirstMin<T>(rows: seq<T>, keep: T -> bool, key: T -> int): (r: Option<T>)
    ensures r.None? <==> forall i :: 0 <= i < |rows| ==> !keep(rows[i])
    ensures r.Some? ==> r.value in rows && keep(r.value)
    ensures r.Some? ==> forall i :: 0 <= i < |rows| && keep(rows[i]) ==> key(r.value) <= key(rows[i])
  {
    if rows == [] then None
    else
      var rest := FirstMin(rows[1..], keep, key);
      assert forall i :: 1 <= i < |rows| ==> rows[i] == rows[1..][i - 1];
      if !keep(rows[0]) then rest
      else if rest.Some? && key(rest.value) < key(rows[0]) then rest
      else Some(rows[0])
  }

  /** The optional `room_id` filter of the query string (None when absent or empty). */
  predicate InRoom(roomFilter: Option<int>, roomId: int) {
    roomFilter.None? || roomFilter.value == roomId
  }

  // ---------------------------------------------------------------------------
  // getOverview

  /** A contract row, with its id, that the overview may show: the tenant's own,
      Active and current, on the requested room if one is given. */
  function ShowsOnOverview(tenantId: int, roomFilter: Option<int>): ((int, Contract)) -> bool {
    (row: (int, Contract)) =>
      row.1.tenantId == tenantId && row.1.status == Active && row.1.isCurrent && InRoom(roomFilter, row.1.roomId)
  }

  function LatestStart(row: (int, Contract)): int {
    -row.1.startDate
  }

  /** `getOverview` over the contracts in table order: the gate's 401, then the latest
      starting contract that may be shown, or 404 when there is none. */
  function Overview(tenantId: Option<int>, roomFilter: Option<int>, rows: seq<(int, Contract)>)
    : (r: Result<(int, Contract)>)
    ensures Authorize(tenantId).Err? ==> r == Err(Error(401, "Unauthorized"))
    ensures Authorize(tenantId).Ok? ==>
      (r == Err(Error(404, "Không tìm thấy phòng trọ đang thuê"))
       <==> forall i :: 0 <= i < |rows| ==> !ShowsOnOverview(tenantId.value, roomFilter)(rows[i]))
    ensures r.Ok? ==>
      && r.value in rows
      && r.value.1.tenantId == tenantId.value && r.value.1.status == Active && r.value.1.isCurrent
      && InRoom(roomFilter, r.value.1.roomId)
      && forall i :: 0 <= i < |rows| && ShowsOnOverview(tenantId.value, roomFilter)(rows[i]) ==>
           rows[i].1.startDate <= r.value.1.startDate
  {
    match Authorize(tenantId)
    case Err(e) => Err(e)
    case Ok(id) =>
      match FirstMin(rows, ShowsOnOverview(id, roomFilter), LatestStart)
      case None => Err(Error(404, "Không tìm thấy phòng trọ đang thuê"))
      case Some(row) => Ok(row)
  }

  // ---------------------------------------------------------------------------
  // getNextPayment

  datatype PaymentStatus = OnTime | DueSoon | Overdue

  /** The urgency of a payment `daysUntilDue` days before its due date. */
  function Classify(daysUntilDue: int): (r: PaymentStatus)
    ensures r == Overdue <==> daysUntilDue < 0
    ensures r == DueSoon <==> 0 <= daysUntilDue <= 3
    ensures r == OnTime <==> daysUntilDue > 3
  {
    if daysUntilDue < 0 then Overdue
    else if daysUntilDue <= 3 then DueSoon
    else OnTime
  }

  function Urgency(s: PaymentStatus): nat {
    match s
    case OnTime => 0
    case DueSoon => 1
    case Overdue => 2
  }

  /** As the days pass, a payment only grows more urgent: on time, then due soon
      for four days, then overdue for good. */
  lemma ClassifyMonotone(today: int, later: int, dueDate: int)
    requires today <= later
    ensures Urgency(Classify(dueDate - today)) <= Urgency(Classify(dueDate - later))
  {
  }

  /** An invoice of the tenant's contracts (on the requested room) with the given status. */
  function OfTenantWithStatus(contracts: map<int, Contract>, tenantId: int, roomFilter: Option<int>, status: string)
    : Invoice -> bool
  {
    (inv: Invoice) =>
      && inv.status == status
      && inv.contractId in contracts
      && contracts[inv.contractId].tenantId == tenantId
      && InRoom(roomFilter, contracts[inv.contractId].roomId)
  }

  function DueDate(inv: Invoice): int {
    inv.dueDate
  }

  datatype NextPayment = NextPayment(invoice: Invoice, status: PaymentStatus, daysUntilDue: int)

  /** `getNextPayment`: the gate's 401; then the tenant's Unpaid invoice due first,
      with the days left until its due date and their classification, or nothing
      when no invoice is Unpaid. */
  function GetNextPayment(tenantId: Option<int>, roomFilter: Option<int>, contracts: map<int, Contract>,
                          invoices: seq<Invoice>, today: int): (r: Result<Option<NextPayment>>)
    ensures Authorize(tenantId).Err? ==> r == Err(Error(401, "Unauthorized"))
    ensures Authorize(tenantId).Ok? ==> r.Ok?
    ensures r.Ok? ==>
      var unpaid := OfTenantWithStatus(contracts, tenantId.value, roomFilter, "Unpaid");
      && (r.value.None? <==> forall i :: 0 <= i < |invoices| ==> !unpaid(invoices[i]))
      && (r.value.Some? ==>
            && r.value.value.invoice in invoices && unpaid(r.value.value.invoice)
            && (forall i :: 0 <= i < |invoices| && unpaid(invoices[i]) ==>
                  r.value.value.invoice.dueDate <= invoices[i].dueDate)
            && r.value.value.daysUntilDue == r.value.value.invoice.dueDate - today
            && r.value.value.status == Classify(r.value.value.daysUntilDue))
  {
    match Authorize(tenantId)
    case Err(e) => Err(e)
    case Ok(id) =>
      match FirstMin(invoices, OfTenantWithStatus(contracts, id, roomFilter, "Unpaid"), DueDate)
      case None => Ok(None)
      case Some(inv) => Ok(Some(NextPayment(inv, Classify(inv.dueDate - today), inv.dueDate - today)))
  }

  // ---------------------------------------------------------------------------
  // getRecentPayments

  /** `ORDER BY paid_date DESC`: the latest payment first, a NULL date after every date. */
  function LatestPaid(inv: Invoice): Key {
    match inv.paidDate
    case Some(t) => Key(0, -t)
    case None => Key(1, 0)
  }

  /** Paid at or after `t` (a NULL date counts as earlier than every date). */
  predicate PaidNoEarlier(inv: Invoice, t: Option<int>) {
    match t
    case None => true
    case Some(u) => inv.paidDate.Some? && inv.paidDate.value >= u
  }

  /** `getRecentPayments`: the gate's 401; then the tenant's Paid invoices, the latest
      payment first, at most `limit` of them. A request without `limit` is the call
      with `limit` 5, the handler's default. */
  function RecentPayments(tenantId: Option<int>, roomFilter: Option<int>, contracts: map<int, Contract>,
                          invoices: seq<Invoice>, limit: nat): (r: Result<seq<Invoice>>)
    ensures Authorize(tenantId).Err? ==> r == Err(Error(401, "Unauthorized"))
    ensures Authorize(tenantId).Ok? ==> r.Ok?
    ensures r.Ok? ==> |r.value| <= limit
    ensures r.Ok? ==> forall i :: 0 <= i < |r.value| ==>
      r.value[i] in invoices && OfTenantWithStatus(contracts, tenantId.value, roomFilter, "Paid")(r.value[i])
    ensures r.Ok? ==> forall i, j :: 0 <= i < j < |r.value| ==> PaidNoEarlier(r.value[i], r.value[j].paidDate)
  {
    match Authorize(tenantId)
    case Err(e) => Err(e)
    case Ok(id) =>
      var kept := Filter(invoices, OfTenantWithStatus(contracts, id, roomFilter, "Paid"));
      var sorted := SortBy(kept, LatestPaid);
      var r := Take(sorted, limit);
      PrefixOfSorted(sorted, |r|, LatestPaid);
      assert forall i :: 0 <= i < |r| ==> r[i] in multiset(kept) by {
        assert forall i :: 0 <= i < |r| ==> r[i] == sorted[i] && sorted[i] in multiset(sorted);
      }
      LatestPaidOrder(r);
      Ok(r)
  }

  /** A sequence sorted on `LatestPaid` lists no payment before a later one. */
  lemma LatestPaidOrder(s: seq<Invoice>)
    requires SortedBy(s, LatestPaid)
    ensures forall i, j :: 0 <= i < j < |s| ==> PaidNoEarlier(s[i], s[j].paidDate)
  {
    forall i, j | 0 <= i < j < |s|
      ensures PaidNoEarlier(s[i], s[j].paidDate)
    {
      assert KeyLe(LatestPaid(s[i]), LatestPaid(s[j]));
    }
  }

  /** A Paid invoice of the tenant is left out only when `limit` payments no earlier
      than it are listed. */
  lemma RecentPaymentsSelection(tenantId: int, roomFilter: Option<int>, contracts: map<int, Contract>,
                                invoices: seq<Invoice>, limit: nat, x: Invoice)
    requires tenantId != 0
    ensures var r := RecentPayments(Some(tenantId), roomFilter, contracts, invoices, limit);
      x in invoices && OfTenantWithStatus(contracts, tenantId, roomFilter, "Paid")(x) && x !in r.value ==>
        |r.value| == limit && forall i :: 0 <= i < |r.value| ==> PaidNoEarlier(r.value[i], x.paidDate)
  {
    var paid := OfTenantWithStatus(contracts, tenantId, roomFilter, "Paid");
    var kept := Filter(invoices, paid);
    var sorted := SortBy(kept, LatestPaid);
    var r := RecentPayments(Some(tenantId), roomFilter, contracts, invoices, limit).value;
    SortByMembership(kept, LatestPaid, x);
    FilterMembership(invoices, paid, x);
    if x in invoices && paid(x) && x !in r {
      var j :| 0 <= j < |sorted| && sorted[j] == x;
      assert r == sorted[..|r|];
      assert j >= |r|;
      PrefixOfSorted(sorted, |r|, LatestPaid);
    }
  }

  // ---------------------------------------------------------------------------
  // getMonthlyExpenses and getUtilityUsage: the month windows

  /** Months counted from year 0, so that consecutive months differ by one. */
  function MonthIndex(year: int, month: int): int {
    12 * year + month - 1
  }

  /** A row of the monthly-expenses query: one month's invoice total and count. */
  datatype ExpenseRow = ExpenseRow(month: int, year: int, totalExpense: int, invoiceCount: nat)

  /** One entry of the expenses window. */
  datatype MonthExpense = MonthExpense(month: int, year: int, totalExpense: int, invoiceCount: nat)

  function ExpenseOf(month: int, year: int): ExpenseRow -> bool {
    (row: ExpenseRow) => row.month == month && row.year == year
  }

  /** The window's entry for a month: the first row of that month and year, or zeros. */
  function ExpenseEntry(rows: seq<ExpenseRow>, month: int, year: int): (r: MonthExpense)
    ensures r.month == month && r.year == year
    ensures (forall i :: 0 <= i < |rows| ==> !ExpenseOf(month, year)(rows[i])) ==>
      r.totalExpense == 0 && r.invoiceCount == 0
    ensures (exists i :: 0 <= i < |rows| && ExpenseOf(month, year)(rows[i])) ==>
      exists i :: && 0 <= i < |rows| && ExpenseOf(month, year)(rows[i])
                  && r.totalExpense == rows[i].totalExpense && r.invoiceCount == rows[i].invoiceCount
  {
    match Find(rows, ExpenseOf(month, year))
    case None => MonthExpense(month, year, 0, 0)
    case Some(row) => MonthExpense(month, year, row.totalExpense, row.invoiceCount)
  }

  /** `getMonthlyExpenses`' normalisation: twelve entries, oldest first, the last one
      the current month; a month before January wraps into the previous year. */
  method MonthlyExpenses(rows: seq<ExpenseRow>, currentYear: int, currentMonth: int) returns (months: seq<MonthExpense>)
    requires 1 <= currentMonth <= 12
    ensures |months| == 12
    ensures forall k :: 0 <= k < 12 ==>
      && 1 <= months[k].month <= 12
      && MonthIndex(months[k].year, months[k].month) == MonthIndex(currentYear, currentMonth) - 11 + k
      && months[k].year == (if months[k].month > currentMonth then currentYear - 1 else currentYear)
      && months[k] == ExpenseEntry(rows, months[k].month, months[k].year)
  {
    months := [];
    var i: int := 11;
    while i >= 0
      invariant -1 <= i <= 11
      invariant |months| == 11 - i
      invariant forall k :: 0 <= k < |months| ==>
        && 1 <= months[k].month <= 12
        && MonthIndex(months[k].year, months[k].month) == MonthIndex(currentYear, currentMonth) - 11 + k
        && months[k].year == (if months[k].month > currentMonth then currentYear - 1 else currentYear)
        && months[k] == ExpenseEntry(rows, months[k].month, months[k].year)
    {
      var month := currentMonth - i;
      var year := currentYear;
      if month <= 0 {
        month := month + 12;
        year := year - 1;
      }
      var data := Find(rows, ExpenseOf(month, year));
      months := months + [MonthExpense(month, year,
                                       if data.Some? then data.value.totalExpense else 0,
                                       if data.Some? then data.value.invoiceCount else 0)];
      i := i - 1;
    }
  }

  /** The twelve entries name twelve different months. */
  lemma WindowMonthsDistinct(years: seq<int>, months: seq<int>, currentYear: int, currentMonth: int, size: nat)
    requires |years| == |months| == size <= 12
    requires forall k :: 0 <= k < size ==>
      1 <= months[k] <= 12 && MonthIndex(years[k], months[k]) == MonthIndex(currentYear, currentMonth) - (size - 1) + k
    ensures forall k, l :: 0 <= k < l < size ==> months[k] != months[l]
  {
    forall k, l | 0 <= k < l < size
      ensures months[k] != months[l]
    {
      if years[k] < years[l] {
        assert MonthIndex(years[l], months[l]) >= MonthIndex(years[k] + 1, months[l]);
      }
    }
  }

  /** The query keeps the current year's invoices only, so an entry of the window
      that falls in the previous year reports zero whatever that month's invoices. */
  lemma PreviousYearReportsZero(rows: seq<ExpenseRow>, currentYear: int, month: int)
    requires forall i :: 0 <= i < |rows| ==> rows[i].year == currentYear
    ensures ExpenseEntry(rows, month, currentYear - 1) == MonthExpense(month, currentYear - 1, 0, 0)
  {
    assert forall i :: 0 <= i < |rows| ==> !ExpenseOf(month, currentYear - 1)(rows[i]);
  }

  /** A row of a utility query: one month's summed usage and reading count. */
  datatype UsageRow = UsageRow(month: int, year: int, totalUsage: int, readingCount: nat)

  /** One entry of a utility window; `usage` repeats `totalUsage` for the chart. */
  datatype MonthUsage = MonthUsage(month: int, year: int, usage: int, totalUsage: int, readingCount: nat)

  function UsageOf(month: int, year: int): UsageRow -> bool {
    (row: UsageRow) => row.month == month && row.year == year
  }

  /** The window's entry for a month: the first row of that month and year, or zeros. */
  function UsageEntry(rows: seq<UsageRow>, month: int, year: int): (r: MonthUsage)
    ensures r.month == month && r.year == year && r.usage == r.totalUsage
    ensures (forall i :: 0 <= i < |rows| ==> !UsageOf(month, year)(rows[i])) ==>
      r.totalUsage == 0 && r.readingCount == 0
    ensures (exists i :: 0 <= i < |rows| && UsageOf(month, year)(rows[i])) ==>
      exists i :: && 0 <= i < |rows| && UsageOf(month, year)(rows[i])
                  && r.totalUsage == rows[i].totalUsage && r.readingCount == rows[i].readingCount
  {
    match Find(rows, UsageOf(month, year))
    case None => MonthUsage(month, year, 0, 0, 0)
    case Some(row) => MonthUsage(month, year, row.totalUsage, row.totalUsage, row.readingCount)
  }

  /** `getUtilityUsage`' normalisation: six entries per utility, oldest first, the
      last one the current month, built from the electricity rows and the water rows
      for the same six months. */
  method UtilityUsage(electricityRows: seq<UsageRow>, waterRows: seq<UsageRow>, currentYear: int, currentMonth: int)
    returns (electricity: seq<MonthUsage>, water: seq<MonthUsage>)
    requires 1 <= currentMonth <= 12
    ensures |electricity| == 6 && |water| == 6
    ensures forall k :: 0 <= k < 6 ==>
      && 1 <= electricity[k].month <= 12
      && MonthIndex(electricity[k].year, electricity[k].month) == MonthIndex(currentYear, currentMonth) - 5 + k
      && electricity[k].year == (if electricity[k].month > currentMonth then currentYear - 1 else currentYear)
      && electricity[k] == UsageEntry(electricityRows, electricity[k].month, electricity[k].year)
      && water[k] == UsageEntry(waterRows, electricity[k].month, electricity[k].year)
  {
    electricity, water := [], [];
    var i: int := 5;
    while i >= 0
      invariant -1 <= i <= 5
      invariant |electricity| == |water| == 5 - i
      invariant forall k :: 0 <= k < |electricity| ==>
        && 1 <= electricity[k].month <= 12
        && MonthIndex(electricity[k].year, electricity[k].month) == MonthIndex(currentYear, currentMonth) - 5 + k
        && electricity[k].year == (if electricity[k].month > currentMonth then currentYear - 1 else currentYear)
        && electricity[k] == UsageEntry(electricityRows, electricity[k].month, electricity[k].year)
        && water[k] == UsageEntry(waterRows, electricity[k].month, electricity[k].year)
    {
      var month := currentMonth - i;
      var year := currentYear;
      if month <= 0 {
        month := month + 12;
        year := year - 1;
      }
      var dataElec := Find(electricityRows, UsageOf(month, year));
      var dataWater := Find(waterRows, UsageOf(month, year));
      electricity := electricity + [MonthUsage(month, year,
                                               if dataElec.Some? then dataElec.value.totalUsage else 0,
                                               if dataElec.Some? then dataElec.value.totalUsage else 0,
                                               if dataElec.Some? then dataElec.value.readingCount else 0)];
      water := water + [MonthUsage(month, year,
                                   if dataWater.Some? then dataWater.value.totalUsage else 0,
                                   if dataWater.Some? then dataWater.value.totalUsage else 0,
                                   if dataWater.Some? then dataWater.value.readingCount else 0)];
      i := i - 1;
    }
  }
}
