/** The invoice controller: the display status derived at read time, the list's
    status filter, invoice creation with its detail rows, the status update, the
    positional labelling of the detail rows and the three statistics. */
module Invoices {
  import opened Common
  import opened Store
  import Calendar

  // ---------------------------------------------------------------------------
  // display_status and overdue_days

  datatype DisplayStatus = ShownPaid | ShownOverdue | ShownUnpaid

  /** The `display_status` CASE: Paid when the stored status is Paid, Overdue when it is
      Unpaid and the due date has passed, Unpaid in every other case (including a
      stored status that is neither). */
  function DisplayOf(inv: Invoice, today: int): (d: DisplayStatus)
    ensures d == ShownPaid <==> inv.status == "Paid"
    ensures d == ShownOverdue <==> inv.status == "Unpaid" && inv.dueDate < today
  {
    if inv.status == "Paid" then ShownPaid
    else if inv.status == "Unpaid" && inv.dueDate < today then ShownOverdue
    else ShownUnpaid
  }

  /** `DATEDIFF(CURRENT_DATE(), due_date)`: positive exactly when the due date has
      passed, which for an Unpaid invoice is exactly when it shows as Overdue. */
  function OverdueDays(inv: Invoice, today: int): (r: int)
    ensures r > 0 <==> inv.dueDate < today
    ensures inv.status == "Unpaid" ==> (r > 0 <==> DisplayOf(inv, today) == ShownOverdue)
  {
    today - inv.dueDate
  }

  /** An invoice shows as Overdue exactly when it is Unpaid and at least a day late. */
  lemma OverdueIffLate(inv: Invoice, today: int)
    ensures DisplayOf(inv, today) == ShownOverdue <==> inv.status == "Unpaid" && OverdueDays(inv, today) >= 1
  {
  }

  /** Overdue is permanent while the stored row is unchanged: a later day shows it
      Overdue too, with more overdue days. */
  lemma OverdueStaysOverdue(inv: Invoice, today: int, later: int)
    requires DisplayOf(inv, today) == ShownOverdue && today <= later
    ensures DisplayOf(inv, later) == ShownOverdue
    ensures OverdueDays(inv, later) >= OverdueDays(inv, today)
  {
  }

  // ---------------------------------------------------------------------------
  // getInvoices: the month and status filters

  /** Whether the status query `q` keeps an invoice shown as `d`: `paid`, `pending`
      and `overdue` select one display status, any other value keeps everything. */
  predicate QueryKeeps(q: string, d: DisplayStatus) {
    if q == "paid" then d == ShownPaid
    else if q == "pending" then d == ShownUnpaid
    else if q == "overdue" then d == ShownOverdue
    else true
  }

  function PassesStatus(q: string, today: int): Invoice -> bool {
    (inv: Invoice) => QueryKeeps(q, DisplayOf(inv, today))
  }

  /** The status filter applied after the query: only a present status other than
      `all` filters. */
  function FilterByStatus(rows: seq<Invoice>, status: Option<string>, today: int): (r: seq<Invoice>)
    ensures |r| <= |rows| && forall i :: 0 <= i < |r| ==> r[i] in rows
    ensures !Truthy(status) || status.value == "all" ==> r == rows
  {
    if Truthy(status) && status.value != "all" then Filter(rows, PassesStatus(status.value, today)) else rows
  }

  /** The filter keeps exactly the invoices whose display status the query names. */
  lemma FilterByStatusMembership(rows: seq<Invoice>, status: Option<string>, today: int, inv: Invoice)
    ensures inv in FilterByStatus(rows, status, today)
        <==> inv in rows && (!Truthy(status) || status.value == "all" || QueryKeeps(status.value, DisplayOf(inv, today)))
  {
    if Truthy(status) {
      FilterMembership(rows, PassesStatus(status.value, today), inv);
    }
  }

  /** The filter keeps the query's order: it distributes over concatenation. */
  lemma FilterByStatusKeepsOrder(a: seq<Invoice>, b: seq<Invoice>, status: Option<string>, today: int)
    ensures FilterByStatus(a + b, status, today) == FilterByStatus(a, status, today) + FilterByStatus(b, status, today)
  {
    if Truthy(status) {
      FilterAppend(a, b, PassesStatus(status.value, today));
    }
  }

  /** `all`, an absent status and any unknown status value keep every row. */
  lemma FilterByStatusUnknownKeepsAll(rows: seq<Invoice>, status: Option<string>, today: int)
    requires !Truthy(status) || (status.value != "paid" && status.value != "pending" && status.value != "overdue")
    ensures FilterByStatus(rows, status, today) == rows
  {
    if Truthy(status) && status.value != "all" {
      FilterAll(rows, PassesStatus(status.value, today));
    }
  }

  function InPeriod(month: string): Invoice -> bool {
    (inv: Invoice) => inv.billingPeriod == Some(month)
  }

  /** `getInvoices` on the rows of the query, in its order: a month keeps the invoices
      billed for it, then the status filter. */
  function ListInvoices(rows: seq<Invoice>, month: Option<string>, status: Option<string>, today: int)
    : (r: seq<Invoice>)
    ensures |r| <= |rows|
  {
    var inMonth := if Truthy(month) then Filter(rows, InPeriod(month.value)) else rows;
    FilterByStatus(inMonth, status, today)
  }

  /** The list holds exactly the rows that pass both filters. */
  lemma ListInvoicesMembership(rows: seq<Invoice>, month: Option<string>, status: Option<string>, today: int,
                               inv: Invoice)
    ensures inv in ListInvoices(rows, month, status, today)
        <==> && inv in rows
             && (!Truthy(month) || inv.billingPeriod == month)
             && (!Truthy(status) || status.value == "all" || QueryKeeps(status.value, DisplayOf(inv, today)))
  {
    var inMonth := if Truthy(month) then Filter(rows, InPeriod(month.value)) else rows;
    FilterByStatusMembership(inMonth, status, today, inv);
    if Truthy(month) {
      FilterMembership(rows, InPeriod(month.value), inv);
    }
  }

  // ---------------------------------------------------------------------------
  // createInvoice

  /** One item of the request: readings as sent (possibly absent or empty), the unit
      price (possibly absent) and the amount. */
  datatype Item = Item(previous: Option<string>, current: Option<string>, price: Option<int>, amount: int)

  /** The request body of `createInvoice`; an absent `items` is the empty sequence. */
  datatype NewInvoice = NewInvoice(
    invoiceType: string,
    contractId: int,
    billingPeriod: Option<string>,
    dueDate: int,
    items: seq<Item>,
    notes: string,
    totalAmount: int,
    roomRent: Option<int>)

  /** The invoice row inserted: Unpaid, issued today, no payment date; a falsy billing
      period is stored as NULL and an absent room rent as 0. */
  function InvoiceRow(req: NewInvoice, today: int): (inv: Invoice)
    ensures inv.status == "Unpaid" && inv.issueDate == today && inv.paidDate == None
    ensures inv.billingPeriod == OrNull(req.billingPeriod) && inv.roomRent == OrZero(req.roomRent)
    ensures inv.contractId == req.contractId && inv.dueDate == req.dueDate
    ensures inv.totalAmount == req.totalAmount && inv.invoiceType == req.invoiceType
  {
    Invoice(req.contractId, OrNull(req.billingPeriod), today, req.dueDate, OrZero(req.roomRent),
            req.totalAmount, "Unpaid", None, req.notes, req.invoiceType)
  }

  /** The detail row of one item: falsy readings become NULL, an absent price 0. */
  function DetailRow(invoiceId: int, item: Item): (d: InvoiceDetail)
    ensures d.invoiceId == invoiceId && d.amount == item.amount && d.unitPrice == OrZero(item.price)
    ensures d.previousReading == OrNull(item.previous) && d.currentReading == OrNull(item.current)
  {
    InvoiceDetail(invoiceId, OrNull(item.previous), OrNull(item.current), OrZero(item.price), item.amount)
  }

  /** The detail rows of an invoice's items, one per item, in item order. */
  function DetailRows(invoiceId: int, items: seq<Item>): (r: seq<InvoiceDetail>)
    ensures |r| == |items|
    ensures forall i :: 0 <= i < |items| ==> r[i] == DetailRow(invoiceId, items[i])
  {
    seq(|items|, i requires 0 <= i < |items| => DetailRow(invoiceId, items[i]))
  }

  /** `createInvoice`: the invoice row and then one detail row per item, in a single
      transaction. `storageError` stands for a failing statement, after which the
      rollback leaves both tables as they were. */
  method CreateInvoice(db: Db, req: NewInvoice, today: int, storageError: bool)
    returns (r: Result<()>, ghost invoiceId: int)
    requires db.Valid()
    modifies db`invoices, db`invoiceDetails, db`nextId
    ensures db.Valid()
    ensures storageError ==>
      r.Err? && r.error.status == 500 && db.invoices == old(db.invoices) && db.invoiceDetails == old(db.invoiceDetails)
    ensures !storageError ==>
      && r.Ok? && invoiceId !in old(db.invoices)
      && (forall i :: 0 <= i < |old(db.invoiceDetails)| ==> old(db.invoiceDetails)[i].invoiceId != invoiceId)
      && db.invoices == old(db.invoices)[invoiceId := InvoiceRow(req, today)]
      && db.invoiceDetails == old(db.invoiceDetails) + DetailRows(invoiceId, req.items)
  {
    if storageError {
      return Err(Error(500, "Lỗi tạo hóa đơn")), 0;
    }
    var invoices0, details0 := db.invoices, db.invoiceDetails;
    var id := db.NewId();
    invoiceId := id;
    db.invoices := db.invoices[id := InvoiceRow(req, today)];
    for i := 0 to |req.items|
      invariant db.invoiceDetails == details0 + DetailRows(id, req.items[..i])
      invariant db.nextId == id + 1 && db.invoices == invoices0[id := InvoiceRow(req, today)]
      invariant db.Valid()
    {
      db.invoiceDetails := db.invoiceDetails + [DetailRow(id, req.items[i])];
      assert DetailRows(id, req.items[..i + 1]) == DetailRows(id, req.items[..i]) + [DetailRow(id, req.items[i])];
    }
    assert req.items[..|req.items|] == req.items;
    r := Ok(());
  }

  function OfInvoice(invoiceId: int): InvoiceDetail -> bool {
    (d: InvoiceDetail) => d.invoiceId == invoiceId
  }

  /** The detail rows `getInvoiceById` reads back for a freshly created invoice are
      exactly its items' rows, in item order. */
  lemma CreatedDetailsReadBack(details0: seq<InvoiceDetail>, id: int, items: seq<Item>)
    requires forall i :: 0 <= i < |details0| ==> details0[i].invoiceId != id
    ensures Filter(details0 + DetailRows(id, items), OfInvoice(id)) == DetailRows(id, items)
  {
    FilterAppend(details0, DetailRows(id, items), OfInvoice(id));
    FilterAll(DetailRows(id, items), OfInvoice(id));
    if Filter(details0, OfInvoice(id)) != [] {
      var d := Filter(details0, OfInvoice(id))[0];
      FilterMembership(details0, OfInvoice(id), d);
    }
  }

  // ---------------------------------------------------------------------------
  // updateInvoiceStatus

  /** The row after a status update: the new status, and a payment instant exactly
      when the new status is Paid; nothing else changes. */
  function MarkStatus(inv: Invoice, status: string, now: int): (r: Invoice)
    ensures r.status == status
    ensures r.paidDate == (if status == "Paid" then Some(now) else None)
    ensures r.(status := inv.status, paidDate := inv.paidDate) == inv
  {
    inv.(status := status, paidDate := if status == "Paid" then Some(now) else None)
  }

  /** Marking Paid twice ends in the state of marking Paid once, at the second instant. */
  lemma MarkPaidTwice(inv: Invoice, first: int, second: int)
    ensures MarkStatus(MarkStatus(inv, "Paid", first), "Paid", second) == MarkStatus(inv, "Paid", second)
  {
  }

  /** After an update the invoice shows as Paid exactly when the update said Paid. */
  lemma MarkStatusDisplay(inv: Invoice, status: string, now: int, today: int)
    ensures DisplayOf(MarkStatus(inv, status, now), today) == ShownPaid <==> status == "Paid"
    ensures MarkStatus(inv, status, now).paidDate.Some? <==> status == "Paid"
  {
  }

  /** `updateInvoiceStatus(id)`: a single UPDATE; an unknown id changes nothing.
      `storageError` stands for an UPDATE the database refuses: 500 (the reply's body
      is the error object) and no change. */
  method UpdateInvoiceStatus(db: Db, id: int, status: string, now: int, storageError: bool) returns (r: Result<()>)
    modifies db`invoices
    ensures r.Ok? <==> !storageError
    ensures storageError ==> r.error.status == 500 && db.invoices == old(db.invoices)
    ensures !storageError && id in old(db.invoices) ==>
      db.invoices == old(db.invoices)[id := MarkStatus(old(db.invoices)[id], status, now)]
    ensures !storageError && id !in old(db.invoices) ==> db.invoices == old(db.invoices)
  {
    if storageError {
      return Err(Error(500, ""));
    }
    if id in db.invoices {
      db.invoices := db.invoices[id := MarkStatus(db.invoices[id], status, now)];
    }
    r := Ok(());
  }

  // ---------------------------------------------------------------------------
  // getInvoiceById: positional labels

  const MeteredType := "Theo số (kWh/khối)"

  /** The label of the item at `index`: electricity, water, then numbered services,
      whose number reads back as the position counted from the first service. */
  function ItemLabel(index: nat): (r: string)
    ensures r != [] && (index >= 2 <==> r[0] == 'D')
    ensures index >= 2 ==> |r| > |"Dịch vụ "| && AllDigits(r[|"Dịch vụ "|..]) && ParseDigits(r[|"Dịch vụ "|..]) == index - 1
  {
    if index == 0 then "Tiền điện"
    else if index == 1 then "Tiền nước"
    else
      NatToStringRoundTrip(index - 1);
      assert ("Dịch vụ " + NatToString(index - 1))[|"Dịch vụ "|..] == NatToString(index - 1);
      "Dịch vụ " + NatToString(index - 1)
  }

  /** The characters that tell the fixed labels from each other and from the
      numbered ones. */
  lemma LabelHead(i: nat)
    ensures i < 2 ==> ItemLabel(i)[0] == 'T' && ItemLabel(i)[5] == (if i == 0 then 'đ' else 'n')
    ensures i >= 2 ==> ItemLabel(i)[0] == 'D'
  {
  }

  /** Different positions get different labels. */
  lemma ItemLabelInjective(i: nat, j: nat)
    requires ItemLabel(i) == ItemLabel(j)
    ensures i == j
  {
    LabelHead(i);
    LabelHead(j);
    if i >= 2 && j >= 2 {
      var p := "Dịch vụ ";
      assert ItemLabel(i)[|p|..] == NatToString(i - 1);
      assert ItemLabel(j)[|p|..] == NatToString(j - 1);
      NatToStringInjective(i - 1, j - 1);
    }
  }

  datatype ItemView = ItemView(detail: InvoiceDetail, serviceName: string, serviceType: string)

  /** The items of the detail view: the rows in `usage_id` order, each labelled by its
      position and typed as metered. */
  function LabelItems(details: seq<InvoiceDetail>): (r: seq<ItemView>)
    ensures |r| == |details|
    ensures forall i :: 0 <= i < |r| ==> r[i].detail == details[i] && r[i].serviceType == MeteredType
    ensures forall i :: 0 <= i < |r| ==> r[i].serviceName == ItemLabel(i)
  {
    seq(|details|, i requires 0 <= i < |details| => ItemView(details[i], ItemLabel(i), MeteredType))
  }

  /** The detail view of an invoice. */
  datatype InvoiceView = InvoiceView(invoice: Invoice, display: DisplayStatus, overdueDays: int, items: seq<ItemView>)

  /** `getInvoiceById(id)`: 404 unless the invoice and the contract, room, boarding
      house (`houses` holds the ids of `boarding_houses`) and tenant it joins with
      exist; otherwise the row with its derived status and its labelled detail rows. */
  function InvoiceDetails(invoices: map<int, Invoice>, contracts: map<int, Contract>, rooms: map<int, Room>,
                          houses: set<int>, tenants: map<int, Tenant>, details: seq<InvoiceDetail>,
                          id: int, today: int)
    : (r: Result<InvoiceView>)
    ensures r.Err? <==> !(id in invoices && invoices[id].contractId in contracts
                          && contracts[invoices[id].contractId].roomId in rooms
                          && rooms[contracts[invoices[id].contractId].roomId].houseId in houses
                          && contracts[invoices[id].contractId].tenantId in tenants)
    ensures r.Err? ==> r.error.status == 404
    ensures r.Ok? ==> r.value.invoice == invoices[id] && r.value.display == DisplayOf(invoices[id], today)
                      && r.value.overdueDays == OverdueDays(invoices[id], today)
                      && r.value.items == LabelItems(Filter(details, OfInvoice(id)))
  {
    if id in invoices && invoices[id].contractId in contracts
       && contracts[invoices[id].contractId].roomId in rooms
       && rooms[contracts[invoices[id].contractId].roomId].houseId in houses
       && contracts[invoices[id].contractId].tenantId in tenants
    then
      var inv := invoices[id];
      Ok(InvoiceView(inv, DisplayOf(inv, today), OverdueDays(inv, today), LabelItems(Filter(details, OfInvoice(id)))))
    else
      Err(Error(404, "Không tìm thấy hóa đơn"))
  }

  // ---------------------------------------------------------------------------
  // getInvoiceStats

  function Amount(inv: Invoice): int {
    inv.totalAmount
  }

  predicate IsPending(today: int, inv: Invoice) {
    inv.status == "Unpaid" && inv.dueDate >= today
  }

  predicate IsLate(today: int, inv: Invoice) {
    inv.status == "Unpaid" && inv.dueDate < today
  }

  function AmountIf(p: Invoice -> bool): Invoice -> int {
    (inv: Invoice) => if p(inv) then inv.totalAmount else 0
  }

  /** `pending_amount`: the totals of the Unpaid invoices not yet due; 0 rather than
      NULL when there is none. */
  function PendingAmount(invs: seq<Invoice>, today: int): (r: int)
    ensures (forall i :: 0 <= i < |invs| ==> !IsPending(today, invs[i])) ==> r == 0
    ensures (forall i :: 0 <= i < |invs| ==> invs[i].totalAmount >= 0) ==> r >= 0
  {
    Sum(invs, AmountIf((inv: Invoice) => IsPending(today, inv)))
  }

  /** `overdue_count`: the number of Unpaid invoices past their due date. */
  function OverdueCount(invs: seq<Invoice>, today: int): (r: nat)
    ensures r <= |invs|
    ensures r == 0 <==> forall i :: 0 <= i < |invs| ==> !IsLate(today, invs[i])
  {
    Count(invs, (inv: Invoice) => IsLate(today, inv))
  }

  /** `revenue_month`: the totals of Paid invoices paid in the current month, of any
      year (`MONTH` alone is compared). */
  predicate PaidThisMonth(now: int, inv: Invoice) {
    inv.status == "Paid" && inv.paidDate.Some? && Calendar.SameMonth(inv.paidDate.value, now)
  }

  function RevenueMonth(invs: seq<Invoice>, now: int): (r: int)
    ensures (forall i :: 0 <= i < |invs| ==> !PaidThisMonth(now, invs[i])) ==> r == 0
    ensures (forall i :: 0 <= i < |invs| ==> invs[i].totalAmount >= 0) ==> r >= 0
  {
    Sum(invs, AmountIf((inv: Invoice) => PaidThisMonth(now, inv)))
  }

  /** No invoice is both pending and overdue, and together they are the Unpaid ones. */
  lemma PendingAndLatePartitionUnpaid(inv: Invoice, today: int)
    ensures !(IsPending(today, inv) && IsLate(today, inv))
    ensures IsPending(today, inv) || IsLate(today, inv) <==> inv.status == "Unpaid"
  {
  }

  /** `overdue_count` counts exactly the invoices the list shows as Overdue. */
  lemma {:induction false} OverdueCountMatchesDisplay(invs: seq<Invoice>, today: int)
    ensures OverdueCount(invs, today) == Count(invs, (inv: Invoice) => DisplayOf(inv, today) == ShownOverdue)
  {
    if invs != [] {
      OverdueCountMatchesDisplay(invs[1..], today);
    }
  }

  /** The pending amount plus the overdue invoices' totals is the total still Unpaid. */
  lemma {:induction false} PendingPlusLateIsUnpaid(invs: seq<Invoice>, today: int)
    ensures PendingAmount(invs, today) + Sum(invs, AmountIf((inv: Invoice) => IsLate(today, inv)))
         == Sum(invs, AmountIf((inv: Invoice) => inv.status == "Unpaid"))
  {
    if invs != [] {
      PendingPlusLateIsUnpaid(invs[1..], today);
    }
  }
}
