/** The maintenance controller: creating a request for the tenant of a leased room,
    overwriting a request's status, the list's filter and order, and the per-status
    counts. */
module Maintenance {
  import opened Common
  import opened Sorting
  import opened Store

  // ---------------------------------------------------------------------------
  // createMaintenanceRequest

  /** Some contract on the room has status Active (whether or not it is current). */
  ghost predicate RoomHasActiveContract(contracts: map<int, Contract>, roomId: int) {
    exists k :: k in contracts && contracts[k].roomId == roomId && contracts[k].status == Active
  }

  /** `createMaintenanceRequest`: the tenant of some Active contract on the room (the
      first row the query returns) files a New request, stamped `now`. Without such
      a contract the reply is 400 and nothing is inserted. `storageError` stands for
      a query the database refuses: 500 (the reply's body is the error object) and
      nothing inserted. */
  method CreateMaintenanceRequest(db: Db, roomId: int, title: string, description: string, now: int,
                                  storageError: bool)
    returns (r: Result<()>, ghost requestId: int)
    requires db.Valid()
    modifies db`maintenance, db`nextId
    ensures db.Valid()
    ensures storageError ==> r.Err? && r.error.status == 500 && db.maintenance == old(db.maintenance)
    ensures !storageError && !RoomHasActiveContract(db.contracts, roomId) ==>
      r == Err(Error(400, "Phòng này hiện không có người thuê")) && db.maintenance == old(db.maintenance)
    ensures !storageError && RoomHasActiveContract(db.contracts, roomId) ==>
      && r.Ok? && requestId !in old(db.maintenance)
      && (exists k :: && k in db.contracts && db.contracts[k].roomId == roomId && db.contracts[k].status == Active
                      && db.maintenance == old(db.maintenance)[requestId :=
                           MaintenanceRequest(roomId, db.contracts[k].tenantId, title, description, "New", now, None, None)])
  {
    if storageError {
      return Err(Error(500, "")), 0;
    }
    if k :| k in db.contracts && db.contracts[k].roomId == roomId && db.contracts[k].status == Active {
      var id := db.NewId();
      db.maintenance := db.maintenance[id := MaintenanceRequest(roomId, db.contracts[k].tenantId, title, description,
                                                                "New", now, None, None)];
      return Ok(()), id;
    }
    return Err(Error(400, "Phòng này hiện không có người thuê")), 0;
  }

  // ---------------------------------------------------------------------------
  // updateMaintenanceStatus

  predicate Closes(status: string) {
    status == "Completed" || status == "Cancelled"
  }

  /** The row after a status update. Completing or cancelling also stamps the
      resolution instant and stores the note, `''` when none was sent; any other
      status overwrites the status alone. No transition is refused. */
  function ApplyStatus(m: MaintenanceRequest, status: string, note: Option<string>, now: int)
    : (r: MaintenanceRequest)
    ensures r.status == status
    ensures Closes(status) ==> r.resolvedDate == Some(now)
                               && r.resolutionNote == Some(if Truthy(note) then note.value else "")
    ensures !Closes(status) ==> r == m.(status := status)
    ensures r.(status := m.status, resolvedDate := m.resolvedDate, resolutionNote := m.resolutionNote) == m
  {
    if Closes(status) then
      m.(status := status, resolvedDate := Some(now), resolutionNote := Some(if Truthy(note) then note.value else ""))
    else
      m.(status := status)
  }

  /** Moving a resolved request back to an open status keeps its resolution stamp and
      note: nothing clears them. */
  lemma ReopenKeepsResolution(m: MaintenanceRequest, note: Option<string>, resolvedAt: int, status: string,
                              later: int)
    requires !Closes(status)
    ensures var reopened := ApplyStatus(ApplyStatus(m, "Completed", note, resolvedAt), status, None, later);
      && reopened.status == status
      && reopened.resolvedDate == Some(resolvedAt)
      && reopened.resolutionNote == Some(if Truthy(note) then note.value else "")
  {
  }

  /** Closing twice keeps only the second closing's instant and note. */
  lemma CloseTwice(m: MaintenanceRequest, s1: string, n1: Option<string>, t1: int,
                   s2: string, n2: Option<string>, t2: int)
    requires Closes(s1) && Closes(s2)
    ensures ApplyStatus(ApplyStatus(m, s1, n1, t1), s2, n2, t2) == ApplyStatus(m, s2, n2, t2)
  {
  }

  /** `updateMaintenanceStatus(id)`: one UPDATE by id; an unknown id changes nothing.
      `storageError` stands for an UPDATE the database refuses: 500 and no change. */
  method UpdateMaintenanceStatus(db: Db, id: int, status: string, note: Option<string>, now: int,
                                 storageError: bool)
    returns (r: Result<()>)
    modifies db`maintenance
    ensures storageError ==> r == Err(Error(500, "Lỗi cập nhật")) && db.maintenance == old(db.maintenance)
    ensures !storageError ==> r.Ok?
    ensures !storageError && id in old(db.maintenance) ==>
      db.maintenance == old(db.maintenance)[id := ApplyStatus(old(db.maintenance)[id], status, note, now)]
    ensures !storageError && id !in old(db.maintenance) ==> db.maintenance == old(db.maintenance)
  {
    if storageError {
      return Err(Error(500, "Lỗi cập nhật"));
    }
    if id in db.maintenance {
      db.maintenance := db.maintenance[id := ApplyStatus(db.maintenance[id], status, note, now)];
    }
    r := Ok(());
  }

  // ---------------------------------------------------------------------------
  // getMaintenanceRequests

  /** `FIELD(status, 'New', 'InProgress', 'Completed', 'Cancelled')`: the position in
      the list, 0 for a status not in it. */
  function StatusRank(status: string): (n: nat)
    ensures n <= 4
    ensures n == 0 <==> status !in ["New", "InProgress", "Completed", "Cancelled"]
  {
    if status == "New" then 1
    else if status == "InProgress" then 2
    else if status == "Completed" then 3
    else if status == "Cancelled" then 4
    else 0
  }

  /** The list's order: by status rank, then newest request first. */
  function ListOrder(m: MaintenanceRequest): Key {
    Key(StatusRank(m.status), -m.requestDate)
  }

  function StatusIs(status: string): MaintenanceRequest -> bool {
    (m: MaintenanceRequest) => m.status == status
  }

  /** `getMaintenanceRequests` on the joined rows (the text search left out): a
      present status other than `All` keeps that status only; the result is ordered
      by `ListOrder`. */
  function ListRequests(rows: seq<MaintenanceRequest>, status: Option<string>): (r: seq<MaintenanceRequest>)
    ensures |r| <= |rows|
  {
    var kept := if Truthy(status) && status.value != "All" then Filter(rows, StatusIs(status.value)) else rows;
    SortBy(kept, ListOrder)
  }

  /** The list holds exactly the rows with the requested status, or all rows. */
  lemma ListRequestsMembership(rows: seq<MaintenanceRequest>, status: Option<string>, m: MaintenanceRequest)
    ensures m in ListRequests(rows, status)
        <==> m in rows && (!Truthy(status) || status.value == "All" || m.status == status.value)
  {
    var kept := if Truthy(status) && status.value != "All" then Filter(rows, StatusIs(status.value)) else rows;
    SortByMembership(kept, ListOrder, m);
    if Truthy(status) && status.value != "All" {
      FilterMembership(rows, StatusIs(status.value), m);
    }
  }

  /** An earlier entry of the list has a smaller status rank, or the same rank and a
      request date no earlier. */
  lemma ListRequestsOrder(rows: seq<MaintenanceRequest>, status: Option<string>, i: int, j: int)
    requires 0 <= i < j < |ListRequests(rows, status)|
    ensures var r := ListRequests(rows, status);
      || StatusRank(r[i].status) < StatusRank(r[j].status)
      || (StatusRank(r[i].status) == StatusRank(r[j].status) && r[i].requestDate >= r[j].requestDate)
  {
    var r := ListRequests(rows, status);
    assert KeyLe(ListOrder(r[i]), ListOrder(r[j]));
  }

  // ---------------------------------------------------------------------------
  // getMaintenanceStats

  /** The four counts; each is SQL NULL over an empty table, where `SUM` has no rows. */
  datatype MaintenanceStats = MaintenanceStats(
    newRequests: Option<nat>, inProgress: Option<nat>, completed: Option<nat>, cancelled: Option<nat>)

  predicate Tracked(m: MaintenanceRequest) {
    StatusRank(m.status) != 0
  }

  function MaintenanceStatsOf(rows: seq<MaintenanceRequest>): (r: MaintenanceStats)
    ensures rows == [] <==> r.newRequests == None
    ensures rows == [] ==> r == MaintenanceStats(None, None, None, None)
  {
    if rows == [] then MaintenanceStats(None, None, None, None)
    else MaintenanceStats(Some(Count(rows, StatusIs("New"))), Some(Count(rows, StatusIs("InProgress"))),
                          Some(Count(rows, StatusIs("Completed"))), Some(Count(rows, StatusIs("Cancelled"))))
  }

  /** The four per-status counts add up to the number of requests with one of the four
      statuses. */
  lemma {:induction false} StatusCountsPartition(rows: seq<MaintenanceRequest>)
    ensures Count(rows, StatusIs("New")) + Count(rows, StatusIs("InProgress"))
            + Count(rows, StatusIs("Completed")) + Count(rows, StatusIs("Cancelled"))
         == Count(rows, Tracked)
  {
    if rows != [] {
      StatusCountsPartition(rows[1..]);
    }
  }

  /** On a non-empty table the stats are present and sum to the tracked requests. */
  lemma StatsSum(rows: seq<MaintenanceRequest>)
    requires rows != []
    ensures var s := MaintenanceStatsOf(rows);
      && s.newRequests.Some? && s.inProgress.Some? && s.completed.Some? && s.cancelled.Some?
      && s.newRequests.value + s.inProgress.value + s.completed.value + s.cancelled.value == Count(rows, Tracked)
  {
    StatusCountsPartition(rows);
  }
}
