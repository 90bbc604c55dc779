# Rental property management: the rental lifecycle, verified

A Dafny model of the core of a boarding-house management system. The system has an
Express/MySQL back end and a browser front end. A landlord manages houses, rooms and
their priced services. The landlord opens and ends leases (contracts) for tenants, bills
them with invoices made of line items, and tracks their maintenance requests. A tenant
logs in with a phone number and sees their own dashboard.

The model has two layers.

* **The store and the controllers that change it.** `Store.Db` is a class holding one map
  per table keyed by row id. The link tables (`room_services`, `house_services`,
  `invoice_details`) are sequences in insertion order. One auto-increment counter gives
  out the ids.
  * Each write operation is a method with a `modifies` frame. Its `ensures` give the
    whole new state of the tables it touches, and say that every other table is
    unchanged.
  * Examples: `Contracts.CreateContract`, `Contracts.TerminateContract`,
    `Invoices.CreateInvoice`, `Rooms.UpdateRoom` and `Rooms.DeleteRoom`.
  * A statement the database refuses is an explicit `storageError` input, for
    transactions and single statements alike. On that path the handler replies 500
    and the tables are as they were: a transaction restores what it wrote, and a
    single statement writes nothing.
* **Pure derivations** that the controllers and pages compute:
  * the invoice display status and its filters;
  * the rent and service-price fallbacks of the contract view;
  * positional labelling of invoice items;
  * the login cascades and the tenant token gate;
  * the dashboard figures;
  * next-payment classification and the month windows;
  * the pages' billing arithmetic, customer codes, initials, service-row collection,
    request bodies and their validation order.

  Each derivation is a function. Its contract, or a lemma beside it, states the
  property the code promises.

A consistency invariant ties room status to leases (`Contracts.Consistent`): a room is
Occupied exactly when some contract on it is Active and current. Opening a lease on a
Vacant room, terminating a lease, and adding or deleting a Vacant room preserve it. The
code never checks a room's status when it opens a lease, nor a contract's state when it
terminates one. Two lemmas give the inputs on which these omissions break the invariant:

* `Contracts.OpenOccupiedDoubleBooks`;
* `Contracts.TerminateAfterDoubleBookingVacatesLeasedRoom`.

The model keeps both behaviours as written. It adds no vacancy check.

Dates are integer day numbers and instants are integer seconds. "Today" and "now" are
parameters. `Calendar` converts a day number to a civil date where the SQL compares
`MONTH(...)` and `YEAR(...)`. Money is an integer amount of VND.

Behaviours of the code that the model keeps as written, some of them surprising:

* `createContract` (backend/controllers/contractController.js:78-150) never checks that
  the room is Vacant.
* `terminateContract` (backend/controllers/contractController.js:240-258) never clears
  the tenant's `is_active` flag.
* `createContract` computes a password hash but stores only the plain password. A new
  tenant's `password_hash` is therefore NULL.
* The room modal fetches `/api/house-services/<id>`. No route of the server answers it,
  so in the wired system the fetch fails and the single empty fallback row is shown.
  `PropertyPage.OpenRoomModal` takes the fetch result as an input and covers all three
  outcomes.
* `submitRoom` sends a `services` list that `createRoom` ignores.
* `deleteRoom` has no route, so it is reachable only from code.
* `getMonthlyExpenses` keeps only invoices issued in the current year. Window months that
  fall in the previous year therefore always report zero
  (`TenantDashboard.PreviousYearReportsZero`).
* An incidental invoice's single item is labelled "Tiền điện" (electricity) in the detail
  view, because labels go by position (`InvoicePage.IncidentalInvoiceStored`).

## Model

| member | source | states |
|---|---|---|
| Store.Db.constructor | backend/controllers/contractController.js:127 | the store starts with every table empty and a valid id counter |
| Store.Db.NewId | backend/controllers/contractController.js:127 | an insert id is the counter's value and is never handed out again; the tables stay valid |
| Contracts.SetRoomStatus | backend/controllers/contractController.js:138 | the room update changes the status of that room only; an unknown room id changes no row |
| Contracts.Close | backend/controllers/contractController.js:244-249 | terminating sets the contract to Terminated and not current and its room to Vacant; an unknown id changes nothing |
| Contracts.Open | backend/controllers/contractController.js:131-138 | the new contract is inserted under its id and the others are kept; its room, when it exists, becomes Occupied and every other room is kept |
| Contracts.HasLeaseUnaffected | backend/controllers/contractController.js:244 | rewriting a contract that is not a lease of a room, before or after, leaves that room's lease status alone |
| Contracts.OpenVacantKeepsConsistent | backend/controllers/contractController.js:131-138 | opening a lease on an existing Vacant room keeps "Occupied exactly when leased" |
| Contracts.OpenOccupiedDoubleBooks | backend/controllers/contractController.js:131-138 | opening a lease on an Occupied room, which the code allows, breaks that consistency |
| Contracts.TerminateAfterDoubleBookingVacatesLeasedRoom | backend/controllers/contractController.js:244-249 | after such a double booking, terminating the new contract marks Vacant a room that still has a lease |
| Contracts.CloseKeepsConsistent | backend/controllers/contractController.js:244-249 | terminating a lease, or a contract whose room has no lease, keeps the consistency |
| Contracts.CloseStaleVacatesLeasedRoom | backend/controllers/contractController.js:244-249 | terminating a contract that is no longer a lease, on a room let again under another lease, marks that leased room Vacant |
| Contracts.ChoosePassword | backend/controllers/contractController.js:92-95 | a supplied non-blank password is used unchanged; an absent or blank one is replaced by the generated one |
| Contracts.ChosenPasswordNotBlank | backend/controllers/contractController.js:92-95 | with a non-blank generator the tenant never gets a blank password |
| Contracts.IdCardPhotos | backend/controllers/contractController.js:86-88 | one path per uploaded photo, front first then back, each under /uploads/ |
| Contracts.Reactivated | backend/controllers/contractController.js:103-120 | an existing tenant becomes active with the new password; photos change only when some were uploaded; name, phone, id card and hash are kept |
| Contracts.Registered | backend/controllers/contractController.js:121-128 | a new tenant is active, with the form's name and phone, the uploaded photos, the placeholder id card P_ plus a timestamp (the form's number is ignored) and no hash |
| Contracts.Leased | backend/controllers/contractController.js:131-135 | the inserted contract is Active and current, on the form's room, for the chosen tenant |
| Contracts.UpsertTenant | backend/controllers/contractController.js:99-128 | a phone already taken updates that tenant in place and inserts nothing; otherwise exactly one tenant is inserted under a fresh id |
| Contracts.InsertLease | backend/controllers/contractController.js:131-138 | one new contract under a fresh id, and the room's status set to Occupied |
| Contracts.CreateContract | backend/controllers/contractController.js:78-150 | on success the reply carries the chosen password, exactly one new lease exists, its room is Occupied and the tenant is upserted by phone; on failure no table changes |
| Contracts.TerminateContract | backend/controllers/contractController.js:240-258 | the contract and rooms tables become Close of the old ones; tenants and everything else are untouched; on failure nothing changes |
| Contracts.CloseEffect | backend/controllers/contractController.js:244-249 | after termination the contract is Terminated and not current, its room (when it exists) is Vacant, and all other contracts and rooms are unchanged |
| Contracts.EditedContract | backend/controllers/contractController.js:160-164 | the five contract scalars are overwritten and every other field, the room included, is kept |
| Contracts.EditedTenant | backend/controllers/contractController.js:171-190 | name and phone are overwritten; the id card changes only to a non-blank trimmed value; password and hash change only for a non-blank password |
| Contracts.EditedIdCardIsTrimmed | backend/controllers/contractController.js:174-177 | a changed id-card number is never blank and is already trimmed |
| Contracts.UpdateContract | backend/controllers/contractController.js:153-202 | the contract row and its tenant's row are rewritten as above and nothing else; an unknown id changes no row; on failure nothing changes |
| Contracts.RoomServiceLines | backend/controllers/contractController.js:48-53 | the room's own priced services, in storage order; the list is empty exactly when no link of the room names an existing service |
| Contracts.RoomServiceLinesMembership | backend/controllers/contractController.js:48-53 | every room link to an existing service yields its line (the service's name and type, the link's price), and every line comes from such a link |
| Contracts.HouseServiceLines | backend/controllers/contractController.js:58-63 | the house's priced services; empty exactly when no link of the house names an existing service |
| Contracts.HouseServiceLinesMembership | backend/controllers/contractController.js:58-63 | every house link to an existing service yields its line (the service's name and type, the link's price), and every line comes from such a link |
| Contracts.HouseServiceLinesAppend | backend/controllers/contractController.js:58-63 | the lines follow the links' storage order |
| Contracts.EffectiveRent | backend/controllers/contractController.js:68 | the contract rent when non-zero, otherwise the room's base rent (0 when NULL) |
| Contracts.ContractDetails | backend/controllers/contractController.js:31-70 | 404 exactly when the contract or its tenant or room is missing; otherwise the room's own services when there are any, else the house's, never merged, and the effective rent |
| Contracts.OwnServicesWin | backend/controllers/contractController.js:56-65 | a room link to an existing service means the view shows only the room's own services |
| Contracts.SearchTenant | backend/controllers/contractController.js:205-237 | 400 exactly when neither phone nor id card is given; a phone takes priority over an id card; no match gives null rather than an error |
| Contracts.ListContracts | backend/controllers/contractController.js:18-20 | the list is ordered newest first |
| Contracts.ListContractsMembership | backend/controllers/contractController.js:18 | a contract is listed exactly when it is a row and the status is absent, empty or All, or equals its own |
| Contracts.ListContractsUnknownStatus | backend/controllers/contractController.js:18 | a status name no contract can have lists nothing |
| Invoices.DisplayOf | backend/controllers/invoiceController.js:34-39 | Paid exactly when the status is Paid; Overdue exactly when Unpaid and due before today; Unpaid otherwise |
| Invoices.OverdueIffLate | backend/controllers/invoiceController.js:159-164 | Overdue exactly when Unpaid and the overdue days, today minus the due date, are at least one |
| Invoices.OverdueStaysOverdue | backend/controllers/invoiceController.js:34-39 | while the row is unchanged, an Overdue invoice stays Overdue on every later day with no fewer overdue days |
| Invoices.FilterByStatusMembership | backend/controllers/invoiceController.js:65-72 | paid, pending and overdue keep exactly the invoices shown as Paid, Unpaid and Overdue |
| Invoices.FilterByStatus | backend/controllers/invoiceController.js:65-72 | keeps only rows of the query, never more of them; no status or `all` keeps every row |
| Invoices.FilterByStatusKeepsOrder | backend/controllers/invoiceController.js:65-72 | the filter keeps the query's order (it distributes over concatenation) |
| Invoices.FilterByStatusUnknownKeepsAll | backend/controllers/invoiceController.js:65-71 | all, an absent status and any unknown value keep every row |
| Invoices.ListInvoices | backend/controllers/invoiceController.js:27-79 | the list is a selection of the query's rows |
| Invoices.ListInvoicesMembership | backend/controllers/invoiceController.js:49-52 | a row is listed exactly when it matches the month (if given) and passes the status filter |
| Invoices.InvoiceRow | backend/controllers/invoiceController.js:99-103 | the invoice is Unpaid, issued today, with no payment date; a falsy period becomes NULL and a falsy room rent 0 |
| Invoices.DetailRow | backend/controllers/invoiceController.js:108-114 | falsy readings become NULL and an absent price 0; the amount is kept |
| Invoices.DetailRows | backend/controllers/invoiceController.js:106-115 | one detail row per item, in item order |
| Invoices.CreateInvoice | backend/controllers/invoiceController.js:82-127 | one invoice under a fresh id and its detail rows appended in order, nothing else; on failure nothing changes |
| Invoices.CreatedDetailsReadBack | backend/controllers/invoiceController.js:180-190 | reading a new invoice's details back by usage order gives exactly the rows written |
| Invoices.MarkStatus | backend/controllers/invoiceController.js:133-136 | the new status, with a payment instant exactly when it is Paid, and every other field kept |
| Invoices.MarkPaidTwice | backend/controllers/invoiceController.js:133-136 | marking Paid twice differs from marking once only in the timestamp |
| Invoices.MarkStatusDisplay | backend/controllers/invoiceController.js:133-136 | after an update the invoice shows as Paid, and has a payment date, exactly when the update said Paid |
| Invoices.UpdateInvoiceStatus | backend/controllers/invoiceController.js:130-141 | only that invoice changes, as MarkStatus says; an unknown id changes nothing; a refused UPDATE gives 500 and no change |
| Invoices.LabelHead | backend/controllers/invoiceController.js:193-203 | the characters that tell the three kinds of label apart |
| Invoices.ItemLabelInjective | backend/controllers/invoiceController.js:193-203 | different positions get different labels |
| Invoices.ItemLabel | backend/controllers/invoiceController.js:193-203 | only positions from 2 on get a numbered service label, and its number reads back as the position minus one |
| Invoices.OverdueDays | backend/controllers/invoiceController.js:159-164 | the overdue days are positive exactly when the due date has passed, which for an Unpaid invoice is exactly when it shows as Overdue |
| Invoices.LabelItems | backend/controllers/invoiceController.js:193-210 | item i is labelled electricity, water, then "Dịch vụ " followed by i − 1, each with the metered type, in usage order |
| Invoices.InvoiceDetails | backend/controllers/invoiceController.js:144-217 | 404 exactly when the invoice, or the contract, room, boarding house or tenant it joins with, is missing; otherwise the invoice with its display status, its overdue days and its labelled detail rows |
| Invoices.PendingAndLatePartitionUnpaid | backend/controllers/invoiceController.js:11-16 | no invoice is both pending and overdue, and together they are the Unpaid ones |
| Invoices.OverdueCountMatchesDisplay | backend/controllers/invoiceController.js:14-16 | the overdue count is the number of invoices the list shows as Overdue |
| Invoices.RevenueMonth | backend/controllers/invoiceController.js:8-10 | 0 rather than NULL when no invoice was paid this month; never negative with non-negative totals |
| Invoices.PendingAmount | backend/controllers/invoiceController.js:11-13 | 0 rather than NULL when no Unpaid invoice is still within its due date; never negative with non-negative totals |
| Invoices.OverdueCount | backend/controllers/invoiceController.js:14-16 | at most the number of invoices, and 0 exactly when no Unpaid invoice is past due |
| Invoices.PendingPlusLateIsUnpaid | backend/controllers/invoiceController.js:11-16 | the pending amount plus the overdue totals is the total still Unpaid |
| Maintenance.CreateMaintenanceRequest | backend/controllers/maintenanceController.js:85-106 | a refused query gives 500 and nothing inserted; without an Active contract on the room, 400 and nothing inserted; otherwise one New request for that contract's tenant under a fresh id |
| Maintenance.ApplyStatus | backend/controllers/maintenanceController.js:65-76 | any status overwrites any status; closing also stamps the instant and the note ('' when absent); other statuses change the status only |
| Maintenance.ReopenKeepsResolution | backend/controllers/maintenanceController.js:65-76 | reopening a resolved request keeps its resolution stamp and note |
| Maintenance.CloseTwice | backend/controllers/maintenanceController.js:65-74 | closing twice keeps only the second closing's instant and note |
| Maintenance.UpdateMaintenanceStatus | backend/controllers/maintenanceController.js:60-82 | only that request changes, as ApplyStatus says; an unknown id changes nothing; a refused UPDATE gives 500 and no change |
| Maintenance.StatusRank | backend/controllers/maintenanceController.js:49 | a rank of at most 4, and 0 exactly for a status outside the four listed |
| Maintenance.ListRequests | backend/controllers/maintenanceController.js:22-57 | the list is a selection of the rows |
| Maintenance.ListRequestsMembership | backend/controllers/maintenanceController.js:39-42 | exactly the rows with the requested status, or all rows for All or no status |
| Maintenance.ListRequestsOrder | backend/controllers/maintenanceController.js:49 | an earlier entry has a smaller status rank, or the same rank and a request date no earlier |
| Maintenance.MaintenanceStatsOf | backend/controllers/maintenanceController.js:6-13 | the counts are absent (SQL NULL) exactly over an empty table |
| Maintenance.StatusCountsPartition | backend/controllers/maintenanceController.js:8-11 | the four per-status counts add up to the requests with one of those statuses |
| Maintenance.StatsSum | backend/controllers/maintenanceController.js:6-13 | on a non-empty table the stats are present and sum to the tracked requests |
| Rooms.ListRooms | backend/controllers/roomController.js:16-19 | with a house id only that house's rooms, from the rows; without one all rows |
| Rooms.ListRoomsComplete | backend/controllers/roomController.js:16-19 | every room of the requested house is listed |
| Rooms.CreateRoom | backend/controllers/roomController.js:135-154 | 400 without a house and no change; a refused insert gives 500 and no change; otherwise one Vacant room under a fresh id |
| Rooms.AddVacantRoomKeepsConsistent | backend/controllers/roomController.js:141-144 | adding a Vacant room keeps room statuses consistent with leases |
| Rooms.EditedRoom | backend/controllers/roomController.js:82-86 | the five fields are overwritten, falsy floor, area and facilities become NULL, and house and status are kept |
| Rooms.RequestedLines | backend/controllers/roomController.js:92-121 | one requested line per kept service row, in form order |
| Rooms.FindOrCreateService | backend/controllers/roomController.js:97-112 | an existing service with this name and type is reused; otherwise exactly one is created; the services table only grows and gains no duplicate |
| Rooms.AddServiceLink | backend/controllers/roomController.js:115-118 | the loop body appends one link matching the kept row |
| Rooms.ReplaceRoomServices | backend/controllers/roomController.js:89-121 | all of the room's links are deleted, and the links added match the kept rows one for one |
| Rooms.UpdateRoom | backend/controllers/roomController.js:73-132 | the room is overwritten as EditedRoom says; the room's old links are all deleted and exactly one link per kept input row is appended, in order; every service added is a kept row's name and type and none duplicates another; other rooms' links are kept; on failure 500 and nothing changes |
| Rooms.MatchedLinksShowRequested | backend/controllers/roomController.js:92-121 | links that match the kept rows show exactly the requested lines |
| Rooms.UpdatedRoomShowsRequested | backend/controllers/roomController.js:88-120 | after an update the room's view lists exactly the kept input services, in order |
| Rooms.OtherRoomsLinksUnchanged | backend/controllers/roomController.js:89 | another room's links are the same, in the same order, after the update |
| Rooms.DeleteRoom | backend/controllers/roomController.js:157-206 | checks in order: an Active contract gives 400, a missing room 404, a non-Vacant room 400, none deleting anything; success removes the room and its links only |
| Rooms.RemoveVacantRoomKeepsConsistent | backend/controllers/roomController.js:192-195 | deleting a Vacant room keeps the consistency |
| Rooms.DeletedRoomHasNoServices | backend/controllers/roomController.js:192 | after a delete no link of the room is left |
| Auth.TenantDecision | backend/controllers/authController.js:77-101 | an inactive account gives 403, then a missing password 400, then a mismatch 401; only otherwise a tenant session |
| Auth.LoginTenant | backend/controllers/authController.js:70-107 | an unknown phone gives 401; otherwise the decision on the tenant with that phone |
| Auth.DeactivatedBeforePassword | backend/controllers/authController.js:79-81 | a deactivated account gets 403 whatever password is given |
| Auth.LeasedTenantCanLogIn | backend/controllers/authController.js:79-89 | a tenant written by createContract, new or reactivated, can log in with the password the contract reply carried |
| Auth.LandlordDecision | backend/controllers/authController.js:45-61 | success exactly when the hash matches; the session carries the landlord role; a mismatch gives 401 |
| Auth.LoginLandlord | backend/controllers/authController.js:32-67 | the login field matches email or phone; an unknown account gives 401 |
| Auth.ClaimsCarryRole | backend/controllers/authController.js:51-55 | a token's claim carries the account's own id and the role of the login path |
| Auth.RegisterLandlord | backend/controllers/authController.js:6-29 | a refused statement gives 500 and inserts nothing; an already registered phone gives 400 and inserts nothing; otherwise one landlord is inserted; phones stay unique |
| Dashboard.OccupancyRate | backend/controllers/dashboardController.js:32 | 0 with no rooms; otherwise the integer nearest to occupied times 100 over total, computed exactly with halves rounded up |
| Dashboard.OccupancyRateBounds | backend/controllers/dashboardController.js:32 | the rate lies between 0 and 100, is 100 for a full house and 0 for an empty one |
| Dashboard.RoomsOccupancy | backend/controllers/dashboardController.js:8-13 | the rate over the rooms table is a percentage |
| Dashboard.ProcessingWithinActive | backend/controllers/dashboardController.js:23-37 | processing never exceeds active, and both are 0 with no requests |
| Dashboard.MaintenanceActive | backend/controllers/dashboardController.js:23-28 | at most the number of requests, and 0 exactly when none is New or InProgress |
| Dashboard.MaintenanceProcessing | backend/controllers/dashboardController.js:23-28 | at most the number of requests, and 0 exactly when none is InProgress |
| Dashboard.MonthRevenueWithinInvoiceRevenue | backend/controllers/dashboardController.js:15-21 | with non-negative totals, the month-and-year revenue never exceeds the invoice page's month-only revenue |
| Dashboard.MonthRevenue | backend/controllers/dashboardController.js:15-21 | 0 rather than NULL when nothing was paid in the current month of the current year; never negative with non-negative totals |
| Dashboard.UpcomingPayments | backend/controllers/dashboardController.js:66-75 | at most five, ascending by due date |
| Dashboard.UpcomingPaymentsSelection | backend/controllers/dashboardController.js:66-75 | Unpaid invoices only; an Unpaid invoice is left out only when five listed ones are due no later |
| Dashboard.MergeActivities | backend/controllers/dashboardController.js:110-112 | the concatenation, newest first, truncated to at most five |
| Dashboard.MergeActivitiesSelection | backend/controllers/dashboardController.js:110-112 | the feed holds entries of the three lists only; an entry is dropped only when five listed ones are no older |
| TenantDashboard.BearerToken | backend/controllers/tenantDashboardController.js:7-8 | the second space-separated piece of the header, when present and non-empty |
| TenantDashboard.TenantIdFromToken | backend/controllers/tenantDashboardController.js:5-15 | null for a missing token, a failed verification or a non-tenant role; otherwise the claim's id |
| TenantDashboard.Authorize | backend/controllers/tenantDashboardController.js:20-23 | no id, or the falsy id 0, gives 401 |
| TenantDashboard.TenantSessionPassesGate | backend/controllers/tenantDashboardController.js:5-15 | a tenant login's token passes the gate with the tenant's id; a landlord's never does |
| TenantDashboard.Overview | backend/controllers/tenantDashboardController.js:18-66 | 404 exactly when the tenant has no Active and current contract (on the room asked for); otherwise the one starting latest |
| TenantDashboard.Classify | backend/controllers/tenantDashboardController.js:477-483 | overdue when the days until due are negative, due soon for 0 to 3, on time otherwise |
| TenantDashboard.ClassifyMonotone | backend/controllers/tenantDashboardController.js:477-483 | as the days pass a payment only grows more urgent |
| TenantDashboard.GetNextPayment | backend/controllers/tenantDashboardController.js:429-490 | null exactly when no invoice is Unpaid; otherwise the Unpaid one due first, its days until due and their classification |
| TenantDashboard.RecentPayments | backend/controllers/tenantDashboardController.js:330-370 | Paid invoices of the tenant only, at most the limit, latest payment first |
| TenantDashboard.RecentPaymentsSelection | backend/controllers/tenantDashboardController.js:353-365 | a Paid invoice is left out only when the limit is reached by payments no earlier |
| TenantDashboard.ExpenseEntry | backend/controllers/tenantDashboardController.js:184-190 | the window entry is the first row of that month and year, or zeros |
| TenantDashboard.MonthlyExpenses | backend/controllers/tenantDashboardController.js:172-191 | twelve entries, consecutive months oldest first ending at the current month, each month in 1..12 and wrapping into the previous year |
| TenantDashboard.WindowMonthsDistinct | backend/controllers/tenantDashboardController.js:176-182 | the window's entries name different months |
| TenantDashboard.PreviousYearReportsZero | backend/controllers/tenantDashboardController.js:163 | because the query keeps the current year only, window months of the previous year report zero |
| TenantDashboard.UsageEntry | backend/controllers/tenantDashboardController.js:299-316 | the entry is the first row of that month and year, or zeros, and usage equals total usage |
| TenantDashboard.UtilityUsage | backend/controllers/tenantDashboardController.js:285-317 | six entries per utility for the same consecutive months, oldest first ending at the current month |
| ContractPage.PaymentStatusText | frontend/js/contract.js:44-55 | a missing or empty status is the on-time ok badge; danger exactly for Overdue; warning exactly for Unpaid or PartiallyPaid |
| ContractPage.PadStart | frontend/js/contract.js:185 | padding to length n puts copies of the pad character in front of the unchanged string |
| ContractPage.CustomerCode | frontend/js/contract.js:182-185 | T- followed by at least four characters |
| ContractPage.CustomerCodeParts | frontend/js/contract.js:182-185 | after T- come the room number's digits in order, left-padded with zeros to at least four, then its other characters |
| ContractPage.CustomerCodeBody | frontend/js/contract.js:183-185 | the code's body is the padded digits followed by the non-digits |
| ContractPage.Heads | frontend/js/contract.js:188 | at most one head per word |
| ContractPage.Initials | frontend/js/contract.js:188 | ?? with no name; otherwise at most two characters, no more than the words |
| ContractPage.InitialsOfWords | frontend/js/contract.js:188 | a name of two or more single-spaced words gets its first two words' upper-cased heads |
| ContractPage.VietnameseInitials | frontend/js/contract.js:188 | "đặng văn an" shows as "ĐV" |
| Common.ToUpperChar | frontend/js/contract.js:188 | a small ASCII letter becomes its capital, đ becomes Đ, and an ASCII capital results exactly from an ASCII letter |
| Common.ToUpperCharIdempotent | frontend/js/contract.js:188 | upper-casing twice is upper-casing once |
| ContractPage.SubmitCreateContract | frontend/js/contract.js:260-290 | checks stop at the first failure: room, then name and phone, then id card; otherwise the fields are sent with amounts reduced to digits |
| ContractPage.AmountDigitsKept | frontend/js/contract.js:287-288 | an amount of digits is sent as typed; stripping loses only the non-digits |
| ContractPage.ContractModal.constructor | frontend/js/contract.js:107-122 | the page starts with the modal closed and no contract selected |
| ContractPage.ContractModal.Toggle | frontend/js/contract.js:107-122 | opening keeps the selection; closing clears it |
| ContractPage.ContractModal.ViewDetails | frontend/js/contract.js:329-331 | from a closed modal it opens on the contract; from an open one it closes and clears |
| ContractPage.ContractModal.Save | frontend/js/contract.js:409-425 | nothing is sent without a selected contract; otherwise the edit fields with digit-only amounts |
| ContractPage.ContractModal.Terminate | frontend/js/contract.js:463-474 | nothing happens without a selection or a confirmation; once sent, the modal closes unless the fetch is rejected, whatever the reply's status |
| ContractPage.ClosedModalSavesNothing | frontend/js/contract.js:118-120 | with the modal closed, save sends nothing |
| InvoicePage.Usage | frontend/js/invoice.js:122-123 | usage is the new reading minus the old, clamped at zero |
| InvoicePage.CalculateTotal | frontend/js/invoice.js:116-142 | usage times 3500 and times 15000, and a grand total of room price plus both, never below the room price |
| InvoicePage.CalculateTotalMonotone | frontend/js/invoice.js:120-139 | a backwards meter costs nothing, and a higher new reading never lowers the total |
| InvoicePage.CalcIncidental | frontend/js/invoice.js:144-149 | the incidental total is the price entered |
| InvoicePage.CreateInvoicePayload | frontend/js/invoice.js:152-213 | no contract, then no due date, stops with an alert; the monthly body carries two items priced 3500 and 15000 and the sum; the incidental body has no period, room rent 0 and one item priced at the amount |
| InvoicePage.MonthlyInvoiceStored | frontend/js/invoice.js:165-195 | a monthly invoice is stored Unpaid with the grand total shown, and its two items carry the fixed prices and the electricity and water labels |
| InvoicePage.IncidentalInvoiceStored | frontend/js/invoice.js:197-212 | an incidental invoice is stored with no period and rent 0; its one item is priced at the amount and labelled as electricity |
| MaintenancePage.Actions | frontend/js/maintenance.js:73-97 | New offers InProgress and Cancelled, InProgress offers Completed, and no other status has buttons; a resolution exactly for Completed and Cancelled, with the note or "Không có ghi chú" |
| MaintenancePage.ActionsMoveForward | frontend/js/maintenance.js:74-97 | the buttons only move forward in the status order, and closed requests offer none |
| MaintenancePage.UpdateStatus | frontend/js/maintenance.js:151-163 | a note is prompted only for a closing status; dismissing sends nothing; other statuses send '' |
| MaintenancePage.ButtonUpdateStored | frontend/js/maintenance.js:151-163 | after a button and an answered prompt, the server stores that answer and the instant, or changes the status alone |
| MaintenancePage.TimeAgo | frontend/js/maintenance.js:10-25 | the largest unit exceeded strictly gives the floor of the ratio; "Vừa xong" at 60 seconds or less |
| MaintenancePage.TimeAgoCountBounds | frontend/js/maintenance.js:14-23 | a shown count is at least one and stays within the next unit up |
| MaintenancePage.TimeAgoText | frontend/js/maintenance.js:15-24 | "Vừa xong" exactly when no unit is exceeded |
| MaintenancePage.TimeAgoTextInjective | frontend/js/maintenance.js:15-24 | different ages give different texts: the count and the unit can be read back |
| PropertyPage.KeptServices | frontend/js/property.js:62-79 | no more services than rows |
| PropertyPage.CollectServices | frontend/js/property.js:62-79 | the loop pushes exactly the kept, cleaned rows, in row order |
| PropertyPage.KeptServicesMembership | frontend/js/property.js:67-77 | a row is kept exactly when its trimmed name and digit-only price are non-empty, and every service comes from such a row |
| PropertyPage.KeptServicesSendable | frontend/js/property.js:68-75 | every collected name is trimmed and non-empty, and every price is non-empty digits |
| PropertyPage.KeptServicesOrder | frontend/js/property.js:67-77 | kept rows appear in row order |
| PropertyPage.AsRows | frontend/js/property.js:99-101 | rows rendered from services, one per service |
| PropertyPage.CollectIdempotent | frontend/js/property.js:62-79 | collecting rows rendered from collected services gives the same services |
| PropertyPage.CollectedServicesAllKeptByServer | backend/controllers/roomController.js:94-118 | every collected service has a name and a price, so the room update keeps all of them and stores their lines |
| PropertyPage.SelectedType | frontend/js/property.js:39-43 | the select shows one of its three options, the given type when it is one |
| PropertyPage.OpenRoomModal | frontend/js/property.js:82-114 | aborts without a house; a failed fetch gives one empty row; no house services give the two default rows; otherwise a copy of the house's services |
| PropertyPage.UntouchedRoomFormServices | frontend/js/property.js:103-105 | submitting the untouched default rows sends Điện 3500 and Nước 100000 |
| PropertyPage.UntouchedFallbackSendsNothing | frontend/js/property.js:110 | submitting the untouched fallback row sends no service |
| PropertyPage.DefaultServicesSendable | frontend/js/property.js:104-105 | the default services are trimmed names with digit prices |
| PropertyPage.Page.constructor | frontend/js/property.js:134-149 | the page starts with no current house |
| PropertyPage.Page.LoadHouses | frontend/js/property.js:142-149 | an empty list clears the house; an unset house becomes the first; a set one is kept |
| PropertyPage.Page.ClickTab | frontend/js/property.js:157-159 | the clicked house becomes current, then the reload applies the loading rule |
| PropertyPage.Page.SubmitRoom | frontend/js/property.js:288-314 | no house alerts first; sent exactly with a room number and a rent with some digit; the body carries the digit-only rent and the collected services |
| PropertyPage.SubmitHouse | frontend/js/property.js:252-268 | rejected exactly without a name; otherwise landlord 1 and the collected services |

## Left out

- SQL text, joins, connection pooling and transaction mechanics: tables are maps and sequences, and a transaction is all of its writes or none.
- SQL `LIKE` search in `getContracts`, `getInvoices` and `getMaintenanceRequests`: the lists model the status and month filters and the ordering only.
- `CURRENT_DATE()`, `NOW()` and `DATEDIFF`: "today" and "now" are parameters in day numbers and seconds.
- bcrypt hashing and comparison: the hash is a parameter and the comparison a function parameter of `Auth.LoginLandlord`.
- JWT signing and verification: a token's claim is modelled, and verification is a function parameter of `TenantDashboard.TenantIdFromToken`.
- `Math.random` password generation and the `Date.now` placeholder: their results are parameters of `Contracts.CreateContract`.
- multer file uploads and the /uploads static store: stored file names are inputs.
- Concurrency: requests are atomic and sequential; the unguarded race on room vacancy is not modelled.
- backend/controllers/houseController.js: SQL counts and inserts, beyond the house services the contract view reads.
- backend/server.js and backend/routes: Express wiring.
- frontend/js/tenant-dashboard.js and frontend/js/trangchu.js: DOM rendering, fetch and floating-point chart scaling.
- DOM manipulation, alerts, `fetch`, currency and date formatting: each page handler returns the alert or the request it would send.
- `parseFloat`: a form number is an integer read alongside its text; floating-point amounts are not modelled.
- Fetch failures and a dismissed prompt are `None` inputs.
- The page reload after creating a contract and the list refreshes after each action.
- `getDashboardChart`, `getTopProperties` and the statistics endpoints other than invoice and maintenance stats: grouped SQL aggregates with no logic of their own.
- `getRoomById`, `getOverview`'s extra columns, and the tenant endpoints that only select rows: plain queries.
- `loadRequests` on a status outside the four known ones: the colour lookup yields `undefined`, so building that card throws, and neither it nor the cards after it are rendered (the error is only logged); card rendering is not modelled, and `MaintenancePage.Actions` gives such a status no actions.
- TenantDashboard.MonthlyExpenses: requires a month in 1..12, the range the clock's `getMonth() + 1` always gives.
- TenantDashboard.UtilityUsage: requires a month in 1..12, for the same reason.
- ContractPage.Initials: states only that a missing name gives ?? and bounds the length otherwise; a name such as "? ?" also gives ??, so no converse holds. Upper-casing covers ASCII, Latin-1, Latin Extended-A, ơ, ư and Latin Extended Additional (every Vietnamese letter); other scripts, the Latin Extended-B letters other than ơ and ư, ẛ (whose capital is Ṡ), µ, ı, ſ, and the letters whose capital is longer (ß gives "SS", so a name can get more than two initials) are kept as they are. `substring` counts UTF-16 units, so a head outside the Basic Multilingual Plane is split there and not here.
- ContractPage.InitialsOfWords: the heads are upper-cased by `ToUpperChar`, with the coverage given for `ContractPage.Initials`.
- Common.ToUpperChar: letter by letter, with the coverage given for `ContractPage.Initials`.
- Dashboard.OccupancyRate: computes the rounding exactly, where the code rounds the floating-point product `occupied / total * 100`; the two agree except when that value is exactly half an integer, where the product can fall just below the half and round down (23 of 40 rooms shows 57 where the model gives 58).
- Read-only handlers (the logins, the tenant search, the lists, details and statistics): a query the database refuses gives 500 from each catch block; the model's reads do not fail.
- Rooms.CreateRoom: a field missing from the request body makes the driver refuse the bound parameters; the model leaves this inside `storageError` rather than deriving it from the request.
- Invoices.InvoiceDetails: the boarding house's name and address, and the tenant's contact columns, are not carried in the view.
- ListContractsUnknownStatus (Contracts.ListContractsUnknownStatus): strings compare exactly, where MySQL's default `_ci` collation compares without case, so there a status such as "active" lists the Active contracts.
- MarkStatusDisplay (Invoices.MarkStatusDisplay): strings compare exactly; under a `_ci` collation a status "paid" is stored without a payment date (the code's check is exact) yet shows as Paid.
- FindOrCreateService (Rooms.FindOrCreateService): names and types compare exactly; under a `_ci` collation an existing service differing only in case would be reused instead of a new one being created.
- UpdatedRoomShowsRequested (Rooms.UpdatedRoomShowsRequested): relies on the exact lookup of `Rooms.FindOrCreateService`; under a `_ci` collation a room could list a case variant of a requested service.
- EffectiveRent (Contracts.EffectiveRent): money columns are integers; a DECIMAL column arrives as a string such as "0.00", which is truthy, so there a zero rent would be kept rather than replaced by the room's base rent.
- The database is assumed to use exact (binary) string comparison and integer money columns; foreign keys are not modelled, so no table requires a row's parent to exist.
- Store.Db.NewId: one counter shared by all tables, where MySQL keeps one per table; only freshness matters to the model.
