/** The landlord dashboard: the occupancy rate, the maintenance counters, the revenue
    of the current month, the upcoming payments and the merged activity feed. */
module Dashboard {
  import opened Common
  import opened Sorting
  import opened Store
  import Calendar
  import Invoices

  // ---------------------------------------------------------------------------
  // occupancy_rate

  /** `Math.round(occupied / total * 100)`, 0 for no rooms: the nearest integer to
      the percentage, halves rounded up. */
  function OccupancyRate(occupied: nat, total: nat): (r: int)
    ensures total == 0 ==> r == 0
    ensures total > 0 ==> 2 * total * r <= 200 * occupied + total < 2 * total * (r + 1)
  {
    if total > 0 then (200 * occupied + total) / (2 * total) else 0
  }

  /** A rate is a percentage: between 0 and 100 when no more rooms are occupied than
      exist, 100 exactly when all are and 0 when none is. */
  lemma OccupancyRateBounds(occupied: nat, total: nat)
    requires occupied <= total
    ensures 0 <= OccupancyRate(occupied, total) <= 100
    ensures total > 0 && occupied == total ==> OccupancyRate(occupied, total) == 100
    ensures occupied == 0 ==> OccupancyRate(occupied, total) == 0
  {
    var r := OccupancyRate(occupied, total);
    var d := 2 * total;
    if total > 0 {
      if r > 100 {
        MulMono(d, r, 101);
      }
      if r < 0 {
        MulMono(d, 0, r + 1);
      }
      if occupied == total && r < 100 {
        MulMono(d, 100, r + 1);
      }
      if occupied == 0 && r > 0 {
        MulMono(d, r, 1);
      }
    }
  }

  lemma MulMono(a: int, x: int, y: int)
    requires a > 0 && x >= y
    ensures a * x >= a * y
  {
  }

  function RoomOccupied(room: Room): bool {
    room.status == Occupied
  }

  /** The rate over the rooms table. */
  function RoomsOccupancy(rooms: seq<Room>): (r: int)
    ensures 0 <= r <= 100
  {
    OccupancyRateBounds(Count(rooms, RoomOccupied), |rooms|);
    OccupancyRate(Count(rooms, RoomOccupied), |rooms|)
  }

  // ---------------------------------------------------------------------------
  // maintenance_active and maintenance_processing

  predicate IsOpenRequest(m: MaintenanceRequest) {
    m.status == "New" || m.status == "InProgress"
  }

  predicate IsProcessing(m: MaintenanceRequest) {
    m.status == "InProgress"
  }

  /** The active count (New or InProgress) and the processing count (InProgress),
      both 0 instead of NULL over an empty table. */
  function MaintenanceActive(rows: seq<MaintenanceRequest>): (r: nat)
    ensures r <= |rows|
    ensures r == 0 <==> forall i :: 0 <= i < |rows| ==> !IsOpenRequest(rows[i])
  {
    Count(rows, IsOpenRequest)
  }

  function MaintenanceProcessing(rows: seq<MaintenanceRequest>): (r: nat)
    ensures r <= |rows|
    ensures r == 0 <==> forall i :: 0 <= i < |rows| ==> !IsProcessing(rows[i])
  {
    Count(rows, IsProcessing)
  }

  /** Every request in progress is active, so processing never exceeds active. */
  lemma {:induction false} ProcessingWithinActive(rows: seq<MaintenanceRequest>)
    ensures MaintenanceProcessing(rows) <= MaintenanceActive(rows)
    ensures rows == [] ==> MaintenanceActive(rows) == 0 && MaintenanceProcessing(rows) == 0
  {
    if rows != [] {
      ProcessingWithinActive(rows[1..]);
    }
  }

  // ---------------------------------------------------------------------------
  // revenue_month

  /** Paid, with a payment instant in the current month of the current year. */
  predicate PaidInCurrentMonth(now: int, inv: Invoice) {
    inv.status == "Paid" && inv.paidDate.Some? && Calendar.SameMonthAndYear(inv.paidDate.value, now)
  }

  /** `COALESCE(SUM(total_amount), 0)` over those invoices. */
  function MonthRevenue(invs: seq<Invoice>, now: int): (r: int)
    ensures (forall i :: 0 <= i < |invs| ==> !PaidInCurrentMonth(now, invs[i])) ==> r == 0
    ensures (forall i :: 0 <= i < |invs| ==> invs[i].totalAmount >= 0) ==> r >= 0
  {
    Sum(invs, Invoices.AmountIf((inv: Invoice) => PaidInCurrentMonth(now, inv)))
  }

  /** With non-negative totals the dashboard's month revenue never exceeds the
      invoice page's, which compares the month and not the year. */
  lemma {:induction false} MonthRevenueWithinInvoiceRevenue(invs: seq<Invoice>, now: int)
    requires forall i :: 0 <= i < |invs| ==> invs[i].totalAmount >= 0
    ensures MonthRevenue(invs, now) <= Invoices.RevenueMonth(invs, now)
  {
    if invs != [] {
      MonthRevenueWithinInvoiceRevenue(invs[1..], now);
    }
  }

  // ---------------------------------------------------------------------------
  // getUpcomingPayments

  predicate IsUnpaid(inv: Invoice) {
    inv.status == "Unpaid"
  }

  function EarliestDue(inv: Invoice): Key {
    Key(inv.dueDate, 0)
  }

  /** The Unpaid invoices, earliest due date first, at most five (the joins with the
      contract, room and tenant left out). */
  function UpcomingPayments(invs: seq<Invoice>): (r: seq<Invoice>)
    ensures |r| <= 5
    ensures forall i, j :: 0 <= i < j < |r| ==> r[i].dueDate <= r[j].dueDate
  {
    var sorted := SortBy(Filter(invs, IsUnpaid), EarliestDue);
    PrefixOfSorted(sorted, Min(|sorted|, 5), EarliestDue);
    Take(sorted, 5)
  }

  /** The list holds Unpaid invoices only, and an Unpaid invoice is left out only
      when five invoices due no later than it are listed. */
  lemma UpcomingPaymentsSelection(invs: seq<Invoice>, x: Invoice)
    ensures x in UpcomingPayments(invs) ==> x in invs && x.status == "Unpaid"
    ensures x in invs && x.status == "Unpaid" && x !in UpcomingPayments(invs) ==>
      var r := UpcomingPayments(invs);
      |r| == 5 && forall i :: 0 <= i < |r| ==> r[i].dueDate <= x.dueDate
  {
    var unpaid := Filter(invs, IsUnpaid);
    var sorted := SortBy(unpaid, EarliestDue);
    var r := UpcomingPayments(invs);
    SortByMembership(unpaid, EarliestDue, x);
    FilterMembership(invs, IsUnpaid, x);
    if x in invs && x.status == "Unpaid" && x !in r {
      var j :| 0 <= j < |sorted| && sorted[j] == x;
      assert r == sorted[..|r|];
      assert j >= |r|;
      PrefixOfSorted(sorted, 5, EarliestDue);
    }
  }

  // ---------------------------------------------------------------------------
  // getDashboardActivities

  datatype ActivityKind = PaymentActivity | MaintenanceActivity | TenantActivity

  /** One entry of the feed, as the three queries produce it. */
  datatype Activity = Activity(kind: ActivityKind, createdAt: int, fullName: string, roomNumber: string)

  function NewestActivity(a: Activity): Key {
    Key(-a.createdAt, 0)
  }

  /** The three lists (each the newest three of its kind) concatenated, sorted
      newest first and cut to five. */
  function MergeActivities(payments: seq<Activity>, maintenance: seq<Activity>, newTenants: seq<Activity>)
    : (r: seq<Activity>)
    ensures |r| == Min(|payments| + |maintenance| + |newTenants|, 5)
    ensures forall i, j :: 0 <= i < j < |r| ==> r[i].createdAt >= r[j].createdAt
  {
    var sorted := SortBy(payments + maintenance + newTenants, NewestActivity);
    PrefixOfSorted(sorted, Min(|sorted|, 5), NewestActivity);
    Take(sorted, 5)
  }

  /** The feed shows entries of the three lists only, and drops an entry only when
      five entries at least as recent are shown. */
  lemma MergeActivitiesSelection(payments: seq<Activity>, maintenance: seq<Activity>, newTenants: seq<Activity>,
                                 x: Activity)
    ensures x in MergeActivities(payments, maintenance, newTenants) ==>
      x in payments || x in maintenance || x in newTenants
    ensures (x in payments || x in maintenance || x in newTenants)
            && x !in MergeActivities(payments, maintenance, newTenants) ==>
      var r := MergeActivities(payments, maintenance, newTenants);
      |r| == 5 && forall i :: 0 <= i < |r| ==> r[i].createdAt >= x.createdAt
  {
    var all := payments + maintenance + newTenants;
    var sorted := SortBy(all, NewestActivity);
    var r := MergeActivities(payments, maintenance, newTenants);
    SortByMembership(all, NewestActivity, x);
    if x in all && x !in r {
      var j :| 0 <= j < |sorted| && sorted[j] == x;
      assert r == sorted[..|r|];
      assert j >= |r|;
      PrefixOfSorted(sorted, 5, NewestActivity);
    }
  }
}
