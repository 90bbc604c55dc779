/** The landlord's invoice page: the live totals of the monthly form, the incidental
    total, and the request body the create button builds from either form. A form
    field is its text together with the number `parseFloat(text) || 0` reads from it;
    a displayed total is read back as the number it shows. */
module InvoicePage {
  import opened Common
  import opened Store
  import Invoices

  const ElectricityPrice := 3500
  const WaterPrice := 15000

  /** An input's text and the number read from it (0 for an empty or unreadable text). */
  datatype Field = Field(text: string, number: int)

  /** Metered usage: the new reading minus the old, never below zero. */
  function Usage(previous: int, current: int): (u: int)
    ensures u >= 0
    ensures u >= current - previous
    ensures u == 0 || u == current - previous
  {
    Max(current - previous, 0)
  }

  /** The figures `calculateTotal` shows. */
  datatype Totals = Totals(elecUsage: int, elecTotal: int, waterUsage: int, waterTotal: int, grandTotal: int)

  /** `calculateTotal`: each usage clamped at zero and priced at its fixed unit price,
      added to the room price. */
  function CalculateTotal(roomPrice: int, elecOld: int, elecNew: int, waterOld: int, waterNew: int): (t: Totals)
    ensures t.elecUsage == Usage(elecOld, elecNew) && t.waterUsage == Usage(waterOld, waterNew)
    ensures t.elecTotal == t.elecUsage * ElectricityPrice && t.waterTotal == t.waterUsage * WaterPrice
    ensures t.elecTotal >= 0 && t.waterTotal >= 0
    ensures t.grandTotal == roomPrice + t.elecTotal + t.waterTotal
    ensures t.grandTotal >= roomPrice
  {
    var elecUsage := Usage(elecOld, elecNew);
    var waterUsage := Usage(waterOld, waterNew);
    Totals(elecUsage, elecUsage * ElectricityPrice, waterUsage, waterUsage * WaterPrice,
           roomPrice + elecUsage * ElectricityPrice + waterUsage * WaterPrice)
  }

  /** A meter read backwards (the new reading below the old) costs nothing, and a
      higher new reading never lowers the total. */
  lemma CalculateTotalMonotone(roomPrice: int, elecOld: int, elecNew: int, elecNew': int, waterOld: int, waterNew: int)
    requires elecNew <= elecNew'
    ensures elecNew <= elecOld ==> CalculateTotal(roomPrice, elecOld, elecNew, waterOld, waterNew).elecTotal == 0
    ensures CalculateTotal(roomPrice, elecOld, elecNew, waterOld, waterNew).grandTotal
         <= CalculateTotal(roomPrice, elecOld, elecNew', waterOld, waterNew).grandTotal
  {
  }

  /** `calcIncidental`: the grand total shown for an incidental invoice is the price
      entered. */
  function CalcIncidental(price: Field): (total: int)
    ensures total == price.number
  {
    price.number
  }

  /** What the create button reads: the selected contract (None for the placeholder
      option), which tab is active, the shared period and due date (None when the
      date input is empty), the monthly form with the totals it shows, and the
      incidental form. */
  datatype InvoiceForm = InvoiceForm(
    contractId: Option<int>, monthly: bool, period: string, dueDate: Option<int>,
    roomPrice: Field, elecOld: Field, elecNew: Field, waterOld: Field, waterNew: Field,
    shownElecTotal: int, shownWaterTotal: int, monthlyNotes: string,
    incidentalPrice: Field, incidentalNotes: string)

  /** What a submit handler does: alert and send nothing, or send a request. */
  datatype Submission<+T> = Rejected(alert: string) | Sent(request: T)

  /** `createInvoice`'s request body: no contract or no due date stops with an alert
      (in that order); the monthly tab sends the room price and two metered items,
      the incidental tab one item priced at the amount and no period. */
  function CreateInvoicePayload(f: InvoiceForm): (r: Submission<Invoices.NewInvoice>)
    ensures f.contractId.None? ==> r == Rejected("Vui lòng chọn phòng!")
    ensures f.contractId.Some? && f.dueDate.None? ==> r == Rejected("Vui lòng chọn hạn thanh toán")
    ensures r.Sent? <==> f.contractId.Some? && f.dueDate.Some?
    ensures r.Sent? ==> r.request.contractId == f.contractId.value && r.request.dueDate == f.dueDate.value
    ensures r.Sent? && f.monthly ==>
      && r.request.invoiceType == "Monthly"
      && r.request.billingPeriod == Some(f.period)
      && r.request.roomRent == Some(f.roomPrice.number)
      && r.request.totalAmount == f.roomPrice.number + f.shownElecTotal + f.shownWaterTotal
      && r.request.items == [Invoices.Item(Some(f.elecOld.text), Some(f.elecNew.text), Some(ElectricityPrice), f.shownElecTotal),
                             Invoices.Item(Some(f.waterOld.text), Some(f.waterNew.text), Some(WaterPrice), f.shownWaterTotal)]
    ensures r.Sent? && !f.monthly ==>
      && r.request.invoiceType == "Incidental"
      && r.request.billingPeriod == None && r.request.roomRent == Some(0)
      && r.request.totalAmount == CalcIncidental(f.incidentalPrice)
      && r.request.items == [Invoices.Item(None, None, Some(f.incidentalPrice.number), f.incidentalPrice.number)]
  {
    if f.contractId.None? then Rejected("Vui lòng chọn phòng!")
    else if f.dueDate.None? then Rejected("Vui lòng chọn hạn thanh toán")
    else if f.monthly then
      Sent(Invoices.NewInvoice(
        "Monthly", f.contractId.value, Some(f.period), f.dueDate.value,
        [Invoices.Item(Some(f.elecOld.text), Some(f.elecNew.text), Some(ElectricityPrice), f.shownElecTotal),
         Invoices.Item(Some(f.waterOld.text), Some(f.waterNew.text), Some(WaterPrice), f.shownWaterTotal)],
        f.monthlyNotes, f.roomPrice.number + f.shownElecTotal + f.shownWaterTotal, Some(f.roomPrice.number)))
    else
      var amount := f.incidentalPrice.number;
      Sent(Invoices.NewInvoice(
        "Incidental", f.contractId.value, None, f.dueDate.value,
        [Invoices.Item(None, None, Some(amount), amount)],
        f.incidentalNotes, amount, Some(0)))
  }

  /** The totals the monthly form shows are those `calculateTotal` computed from its
      fields. */
  predicate ShowsCalculatedTotals(f: InvoiceForm) {
    var t := CalculateTotal(f.roomPrice.number, f.elecOld.number, f.elecNew.number, f.waterOld.number, f.waterNew.number);
    f.shownElecTotal == t.elecTotal && f.shownWaterTotal == t.waterTotal
  }

  /** A monthly invoice sent from a form showing its calculated totals carries the
      grand total shown, never less than the room price; once stored it is Unpaid
      with that total and room rent, and its two detail rows carry the fixed unit
      prices and, in the detail view, the electricity and water labels. */
  lemma MonthlyInvoiceStored(f: InvoiceForm, invoiceId: int, today: int)
    requires f.monthly && f.contractId.Some? && f.dueDate.Some? && ShowsCalculatedTotals(f)
    ensures var req := CreateInvoicePayload(f).request;
      var t := CalculateTotal(f.roomPrice.number, f.elecOld.number, f.elecNew.number, f.waterOld.number, f.waterNew.number);
      var inv := Invoices.InvoiceRow(req, today);
      var views := Invoices.LabelItems(Invoices.DetailRows(invoiceId, req.items));
      && req.totalAmount == t.grandTotal && req.totalAmount >= f.roomPrice.number
      && inv.status == "Unpaid" && inv.totalAmount == t.grandTotal && inv.roomRent == f.roomPrice.number
      && |views| == 2
      && views[0].detail.unitPrice == ElectricityPrice && views[0].serviceName == "Tiền điện"
      && views[1].detail.unitPrice == WaterPrice && views[1].serviceName == "Tiền nước"
  {
  }

  /** An incidental invoice is stored without a period, with room rent 0 and the
      amount as total; its only item is priced at the amount, yet the detail view
      labels it by position, as electricity. */
  lemma IncidentalInvoiceStored(f: InvoiceForm, invoiceId: int, today: int)
    requires !f.monthly && f.contractId.Some? && f.dueDate.Some?
    ensures var req := CreateInvoicePayload(f).request;
      var inv := Invoices.InvoiceRow(req, today);
      var views := Invoices.LabelItems(Invoices.DetailRows(invoiceId, req.items));
      && inv.billingPeriod == None && inv.roomRent == 0 && inv.totalAmount == f.incidentalPrice.number
      && |views| == 1
      && views[0].detail.unitPrice == f.incidentalPrice.number && views[0].detail.amount == f.incidentalPrice.number
      && views[0].detail.previousReading == None && views[0].detail.currentReading == None
      && views[0].serviceName == "Tiền điện"
  {
  }
}
