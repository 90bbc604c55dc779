/** The room controller: the list filter, creating a room, updating a room together
    with its whole service list (finding or creating each service), and deleting a
    room behind its three guards. */
module Rooms {
  import opened Common
  import opened Store
  import opened Contracts

  // ---------------------------------------------------------------------------
  // getRooms

  function InHouse(houseId: int): Room -> bool {
    (r: Room) => r.houseId == houseId
  }

  /** `getRooms`: with a house id only that house's rooms, in query order; without
      one, every room. */
  function ListRooms(rows: seq<Room>, houseId: Option<int>): (r: seq<Room>)
    ensures houseId.None? ==> r == rows
    ensures forall i :: 0 <= i < |r| ==> r[i] in rows && (houseId.Some? ==> r[i].houseId == houseId.value)
  {
    if houseId.Some? then Filter(rows, InHouse(houseId.value)) else rows
  }

  /** Every room of the requested house is listed. */
  lemma ListRoomsComplete(rows: seq<Room>, houseId: int, room: Room)
    requires room in rows && room.houseId == houseId
    ensures room in ListRooms(rows, Some(houseId))
  {
    FilterMembership(rows, InHouse(houseId), room);
  }

  // ---------------------------------------------------------------------------
  // createRoom

  /** A form id is falsy when absent or 0. */
  predicate TruthyId(id: Option<int>) {
    id.Some? && id.value != 0
  }

  datatype NewRoom = NewRoom(
    houseId: Option<int>,
    roomNumber: string,
    floor: Option<string>,
    area: Option<string>,
    rent: int,
    facilities: Option<string>)

  /** `createRoom`: 400 without a house; otherwise a Vacant room under a new id.
      `storageError` stands for an INSERT the database refuses, which gives 500 and
      adds no room. */
  method CreateRoom(db: Db, req: NewRoom, storageError: bool) returns (r: Result<int>)
    requires db.Valid()
    modifies db`rooms, db`nextId
    ensures db.Valid()
    ensures !TruthyId(req.houseId) ==> r == Err(Error(400, "Cần chọn nhà trọ")) && db.rooms == old(db.rooms)
    ensures TruthyId(req.houseId) && storageError ==> r.Err? && r.error.status == 500 && db.rooms == old(db.rooms)
    ensures TruthyId(req.houseId) && !storageError ==>
      && r.Ok? && r.value !in old(db.rooms)
      && db.rooms == old(db.rooms)[r.value := Room(req.houseId.value, req.roomNumber, req.floor, req.area, req.rent,
                                                   req.facilities, Vacant)]
  {
    if !TruthyId(req.houseId) {
      return Err(Error(400, "Cần chọn nhà trọ"));
    }
    if storageError {
      return Err(Error(500, "Lỗi khi tạo phòng"));
    }
    var id := db.NewId();
    db.rooms := db.rooms[id := Room(req.houseId.value, req.roomNumber, req.floor, req.area, req.rent,
                                    req.facilities, Vacant)];
    r := Ok(id);
  }

  /** Adding a Vacant room under an unused id keeps room statuses and leases
      consistent: no lease can name a room that did not exist. */
  lemma AddVacantRoomKeepsConsistent(s: Leasing, id: int, room: Room)
    requires Consistent(s) && id !in s.rooms && room.status == Vacant
    ensures Consistent(Leasing(s.rooms[id := room], s.contracts))
  {
    assert forall k :: k in s.contracts && IsLease(s.contracts[k]) ==> s.contracts[k].roomId != id;
  }

  // ---------------------------------------------------------------------------
  // updateRoom

  /** One row of the form's service list, each field as sent. */
  datatype ServiceInput = ServiceInput(name: Option<string>, serviceType: Option<string>, price: Option<string>)

  datatype RoomEdit = RoomEdit(
    roomNumber: string,
    floor: Option<string>,
    area: Option<string>,
    rent: int,
    facilities: Option<string>,
    services: seq<ServiceInput>)

  /** The room row after the edit: the five fields overwritten, falsy floor, area and
      facilities stored as NULL; the house and the status are kept. */
  function EditedRoom(room: Room, e: RoomEdit): (r: Room)
    ensures r.houseId == room.houseId && r.status == room.status
    ensures r.roomNumber == e.roomNumber && r.baseRent == e.rent
    ensures r.floor == OrNull(e.floor) && r.area == OrNull(e.area) && r.facilities == OrNull(e.facilities)
  {
    room.(roomNumber := e.roomNumber, floor := OrNull(e.floor), area := OrNull(e.area), baseRent := e.rent,
          facilities := OrNull(e.facilities))
  }

  /** A service row is kept when both its name and its price are truthy. */
  predicate Kept(svc: ServiceInput) {
    Truthy(svc.name) && Truthy(svc.price)
  }

  /** The service type used for the lookup and the insert, metered by default. */
  function TypeOf(svc: ServiceInput): string {
    if Truthy(svc.serviceType) then svc.serviceType.value else "Theo số (kWh/khối)"
  }

  /** The line the room's detail view shows for a kept service row. */
  function RequestedLine(svc: ServiceInput): ServiceLine
    requires Kept(svc)
  {
    ServiceLine(svc.name.value, TypeOf(svc), svc.price.value)
  }

  /** The room's service lines an update asks for: one per kept row, in form order. */
  function RequestedLines(inputs: seq<ServiceInput>): (r: seq<ServiceLine>)
    ensures |r| == |Filter(inputs, Kept)|
  {
    var k := Filter(inputs, Kept);
    seq(|k|, j requires 0 <= j < |k| => RequestedLine(k[j]))
  }

  function NotOfRoom(roomId: int): RoomService -> bool {
    (l: RoomService) => l.roomId != roomId
  }

  /** The services table only grows: every row it had is still there, unchanged. */
  ghost predicate Extends(before: map<int, Service>, after: map<int, Service>) {
    forall s :: s in before ==> s in after && after[s] == before[s]
  }

  /** No row added since `base` repeats the (name, type) of another row. */
  ghost predicate NoDuplicateAdded(base: map<int, Service>, m: map<int, Service>) {
    forall a, b :: a in m && b in m && a != b && a !in base ==> m[a] != m[b]
  }

  /** The find-or-create step: an existing service with this name and type is reused,
      otherwise one is inserted under a new id. */
  method FindOrCreateService(db: Db, name: string, serviceType: string, ghost base: map<int, Service>)
    returns (id: int)
    requires db.Valid() && NoDuplicateAdded(base, db.services) && Extends(base, db.services)
    modifies db`services, db`nextId
    ensures db.Valid() && old(db.nextId) <= db.nextId
    ensures id in db.services && db.services[id] == Service(name, serviceType)
    ensures Extends(old(db.services), db.services) && NoDuplicateAdded(base, db.services) && Extends(base, db.services)
    ensures (exists k :: k in old(db.services) && old(db.services)[k] == Service(name, serviceType)) ==>
      db.services == old(db.services)
    ensures (forall k :: k in old(db.services) ==> old(db.services)[k] != Service(name, serviceType)) ==>
      id !in old(db.services) && db.services == old(db.services)[id := Service(name, serviceType)]
  {
    if k :| k in db.services && db.services[k] == Service(name, serviceType) {
      id := k;
    } else {
      id := db.NewId();
      db.services := db.services[id := Service(name, serviceType)];
    }
  }

  /** The links added for a room match the kept rows one for one: same room, a service
      with the row's name and type, the row's price. */
  ghost predicate LinksMatch(added: seq<RoomService>, services: map<int, Service>, roomId: int,
                             kept: seq<ServiceInput>)
  {
    && |added| == |kept|
    && forall j :: 0 <= j < |added| ==>
         && Kept(kept[j]) && added[j].roomId == roomId && added[j].serviceId in services
         && services[added[j].serviceId] == Service(kept[j].name.value, TypeOf(kept[j]))
         && added[j].price == kept[j].price.value
  }

  /** Every service added since `before` is the (name, type) of one of the rows. */
  ghost predicate ServicesFromRows(before: map<int, Service>, after: map<int, Service>, rows: seq<ServiceInput>) {
    forall k :: k in after && k !in before ==>
      exists j :: 0 <= j < |rows| && Kept(rows[j]) && after[k] == Service(rows[j].name.value, TypeOf(rows[j]))
  }

  /** Links that matched before still match once the services table has grown. */
  lemma LinksMatchExtends(added: seq<RoomService>, before: map<int, Service>, after: map<int, Service>,
                          roomId: int, kept: seq<ServiceInput>)
    requires LinksMatch(added, before, roomId, kept) && Extends(before, after)
    ensures LinksMatch(added, after, roomId, kept)
  {
  }

  /** The loop body of `updateRoom` for a kept row: find or create its service and
      link it to the room. */
  method AddServiceLink(db: Db, id: int, svc: ServiceInput, ghost services0: map<int, Service>,
                        ghost kept0: seq<RoomService>, ghost added: seq<RoomService>, ghost kept: seq<ServiceInput>)
    returns (ghost added': seq<RoomService>)
    requires Kept(svc) && db.Valid()
    requires Extends(services0, db.services) && NoDuplicateAdded(services0, db.services)
    requires db.roomServices == kept0 + added && LinksMatch(added, db.services, id, kept)
    requires ServicesFromRows(services0, db.services, kept)
    modifies db`roomServices, db`services, db`nextId
    ensures db.Valid() && old(db.nextId) <= db.nextId
    ensures Extends(services0, db.services) && NoDuplicateAdded(services0, db.services)
    ensures db.roomServices == kept0 + added' && LinksMatch(added', db.services, id, kept + [svc])
    ensures ServicesFromRows(services0, db.services, kept + [svc])
  {
    var sid := FindOrCreateService(db, svc.name.value, TypeOf(svc), services0);
    LinksMatchExtends(added, old(db.services), db.services, id, kept);
    ServicesFromRowsStep(services0, old(db.services), db.services, kept, svc);
    var link := RoomService(id, sid, svc.price.value);
    db.roomServices := db.roomServices + [link];
    added' := added + [link];
  }

  /** One find-or-create keeps the added services accounted for: each is a row's, the
      new row's included. */
  lemma ServicesFromRowsStep(services0: map<int, Service>, mid: map<int, Service>, after: map<int, Service>,
                             kept: seq<ServiceInput>, svc: ServiceInput)
    requires Kept(svc) && ServicesFromRows(services0, mid, kept)
    requires after == mid || exists sid :: sid !in mid && after == mid[sid := Service(svc.name.value, TypeOf(svc))]
    ensures ServicesFromRows(services0, after, kept + [svc])
  {
    var rows := kept + [svc];
    forall k | k in after && k !in services0
      ensures exists j :: 0 <= j < |rows| && Kept(rows[j]) && after[k] == Service(rows[j].name.value, TypeOf(rows[j]))
    {
      if k in mid && after[k] == mid[k] {
        var j :| 0 <= j < |kept| && Kept(kept[j]) && mid[k] == Service(kept[j].name.value, TypeOf(kept[j]));
        assert rows[j] == kept[j];
      } else {
        assert rows[|kept|] == svc;
      }
    }
  }

  /** Steps 2 and 3 of `updateRoom`: all of the room's service links are deleted and
      one link is added per kept form row, in form order. */
  method ReplaceRoomServices(db: Db, id: int, inputs: seq<ServiceInput>)
    requires db.Valid()
    modifies db`roomServices, db`services, db`nextId
    ensures db.Valid() && old(db.nextId) <= db.nextId
    ensures Extends(old(db.services), db.services) && NoDuplicateAdded(old(db.services), db.services)
    ensures ServicesFromRows(old(db.services), db.services, Filter(inputs, Kept))
    ensures exists added ::
      && db.roomServices == Filter(old(db.roomServices), NotOfRoom(id)) + added
      && LinksMatch(added, db.services, id, Filter(inputs, Kept))
  {
    ghost var services0 := db.services;
    var kept0 := Filter(db.roomServices, NotOfRoom(id));
    db.roomServices := kept0;
    ghost var added: seq<RoomService> := [];
    ghost var kept: seq<ServiceInput> := [];
    for i := 0 to |inputs|
      invariant db.Valid() && old(db.nextId) <= db.nextId
      invariant Extends(services0, db.services) && NoDuplicateAdded(services0, db.services)
      invariant db.roomServices == kept0 + added
      invariant kept == Filter(inputs[..i], Kept)
      invariant LinksMatch(added, db.services, id, kept)
      invariant ServicesFromRows(services0, db.services, kept)
    {
      var svc := inputs[i];
      assert inputs[..i + 1] == inputs[..i] + [svc];
      FilterAppend(inputs[..i], [svc], Kept);
      assert Filter([svc], Kept) == (if Kept(svc) then [svc] else []) by {
        assert [svc][1..] == [];
      }
      if Truthy(svc.name) && Truthy(svc.price) {
        added := AddServiceLink(db, id, svc, services0, kept0, added, kept);
        kept := kept + [svc];
      }
    }
    assert inputs[..|inputs|] == inputs;
  }

  /** `updateRoom(id)`: the room's fields are overwritten (no row changes for an
      unknown id) and its service list is replaced. `storageError` stands for a
      failing statement, after which the rollback leaves every table as it was. */
  method UpdateRoom(db: Db, id: int, e: RoomEdit, storageError: bool) returns (r: Result<()>)
    requires db.Valid()
    modifies db`rooms, db`roomServices, db`services, db`nextId
    ensures db.Valid()
    ensures storageError ==>
      && r.Err? && r.error.status == 500
      && db.rooms == old(db.rooms) && db.roomServices == old(db.roomServices) && db.services == old(db.services)
    ensures !storageError ==>
      && r.Ok?
      && (id in old(db.rooms) ==> db.rooms == old(db.rooms)[id := EditedRoom(old(db.rooms)[id], e)])
      && (id !in old(db.rooms) ==> db.rooms == old(db.rooms))
      && Extends(old(db.services), db.services) && NoDuplicateAdded(old(db.services), db.services)
      && ServicesFromRows(old(db.services), db.services, Filter(e.services, Kept))
      && (exists added ::
            && db.roomServices == Filter(old(db.roomServices), NotOfRoom(id)) + added
            && LinksMatch(added, db.services, id, Filter(e.services, Kept)))
      && RoomServiceLines(db.roomServices, db.services, id) == RequestedLines(e.services)
      && forall other :: other != id ==>
           Filter(db.roomServices, OfRoom(other)) == Filter(old(db.roomServices), OfRoom(other))
  {
    if storageError {
      return Err(Error(500, "Lỗi khi cập nhật phòng"));
    }
    if id in db.rooms {
      db.rooms := db.rooms[id := EditedRoom(db.rooms[id], e)];
    }
    ghost var links0 := db.roomServices;
    ReplaceRoomServices(db, id, e.services);
    ghost var added :| && db.roomServices == Filter(links0, NotOfRoom(id)) + added
                       && LinksMatch(added, db.services, id, Filter(e.services, Kept));
    UpdatedRoomShowsRequested(links0, added, db.services, id, e.services);
    forall other | other != id
      ensures Filter(db.roomServices, OfRoom(other)) == Filter(links0, OfRoom(other))
    {
      OtherRoomsLinksUnchanged(links0, added, db.services, id, Filter(e.services, Kept), other);
    }
    r := Ok(());
  }

  /** The room's lines over a concatenation are the lines of each part, in order. */
  lemma {:induction false} RoomServiceLinesAppend(a: seq<RoomService>, b: seq<RoomService>,
                                                  services: map<int, Service>, roomId: int)
    ensures RoomServiceLines(a + b, services, roomId)
         == RoomServiceLines(a, services, roomId) + RoomServiceLines(b, services, roomId)
  {
    if a != [] {
      assert (a + b)[0] == a[0] && (a + b)[1..] == a[1..] + b;
      RoomServiceLinesAppend(a[1..], b, services, roomId);
      var x := RoomServiceLines(a[1..], services, roomId);
      var y := RoomServiceLines(b, services, roomId);
      var l := a[0];
      if l.roomId == roomId && l.serviceId in services {
        var line := ServiceLine(services[l.serviceId].name, services[l.serviceId].serviceType, l.price);
        assert [line] + (x + y) == ([line] + x) + y;
      }
    } else {
      assert a + b == b;
    }
  }

  /** Links that match the kept rows show exactly the requested lines. */
  lemma {:induction false} MatchedLinksShowRequested(added: seq<RoomService>, services: map<int, Service>,
                                                     roomId: int, kept: seq<ServiceInput>)
    requires LinksMatch(added, services, roomId, kept)
    ensures RoomServiceLines(added, services, roomId)
         == seq(|kept|, j requires 0 <= j < |kept| && Kept(kept[j]) => RequestedLine(kept[j]))
  {
    if added != [] {
      assert LinksMatch(added[1..], services, roomId, kept[1..]) by {
        forall j | 0 <= j < |added[1..]|
          ensures added[1..][j] == added[j + 1] && kept[1..][j] == kept[j + 1]
        {
        }
      }
      MatchedLinksShowRequested(added[1..], services, roomId, kept[1..]);
    }
  }

  /** After a successful update the room's detail view lists exactly the kept form
      rows, in form order, with the default type filled in: the old list is gone. */
  lemma UpdatedRoomShowsRequested(links0: seq<RoomService>, added: seq<RoomService>, services: map<int, Service>,
                                  roomId: int, inputs: seq<ServiceInput>)
    requires LinksMatch(added, services, roomId, Filter(inputs, Kept))
    ensures RoomServiceLines(Filter(links0, NotOfRoom(roomId)) + added, services, roomId) == RequestedLines(inputs)
  {
    var others := Filter(links0, NotOfRoom(roomId));
    RoomServiceLinesAppend(others, added, services, roomId);
    assert RoomServiceLines(others, services, roomId) == [];
    MatchedLinksShowRequested(added, services, roomId, Filter(inputs, Kept));
  }

  function OfRoom(roomId: int): RoomService -> bool {
    (l: RoomService) => l.roomId == roomId
  }

  /** Another room's links are the same, in the same order, after the update. */
  lemma OtherRoomsLinksUnchanged(links0: seq<RoomService>, added: seq<RoomService>, services: map<int, Service>,
                                 roomId: int, kept: seq<ServiceInput>, other: int)
    requires LinksMatch(added, services, roomId, kept) && other != roomId
    ensures Filter(Filter(links0, NotOfRoom(roomId)) + added, OfRoom(other)) == Filter(links0, OfRoom(other))
  {
    var others := Filter(links0, NotOfRoom(roomId));
    FilterAppend(others, added, OfRoom(other));
    NoneOfRoom(added, other);
    FilterTwice(links0, roomId, other);
  }

  lemma {:induction false} NoneOfRoom(links: seq<RoomService>, other: int)
    requires forall j :: 0 <= j < |links| ==> links[j].roomId != other
    ensures Filter(links, OfRoom(other)) == []
  {
    if links != [] {
      NoneOfRoom(links[1..], other);
    }
  }

  lemma {:induction false} FilterTwice(links: seq<RoomService>, roomId: int, other: int)
    requires other != roomId
    ensures Filter(Filter(links, NotOfRoom(roomId)), OfRoom(other)) == Filter(links, OfRoom(other))
  {
    if links != [] {
      FilterTwice(links[1..], roomId, other);
      var head := if NotOfRoom(roomId)(links[0]) then [links[0]] else [];
      FilterAppend(head, Filter(links[1..], NotOfRoom(roomId)), OfRoom(other));
    }
  }

  // ---------------------------------------------------------------------------
  // deleteRoom

  /** Some contract on the room has status Active, current or not. */
  ghost predicate RoomHasActiveContract(contracts: map<int, Contract>, roomId: int) {
    exists k :: k in contracts && contracts[k].roomId == roomId && contracts[k].status == Active
  }

  /** `deleteRoom(id)`: an Active contract on the room gives 400, then a missing room
      404, then a room that is not Vacant 400, and none of them deletes anything;
      otherwise the room's service links and the room itself are deleted. */
  method DeleteRoom(db: Db, id: int, storageError: bool) returns (r: Result<()>)
    requires db.Valid()
    modifies db`rooms, db`roomServices
    ensures db.Valid()
    ensures RoomHasActiveContract(db.contracts, id) ==>
      r == Err(Error(400, "Không thể xóa phòng đang được thuê"))
    ensures !RoomHasActiveContract(db.contracts, id) && id !in old(db.rooms) ==>
      r == Err(Error(404, "Không tìm thấy phòng"))
    ensures !RoomHasActiveContract(db.contracts, id) && id in old(db.rooms) && old(db.rooms)[id].status != Vacant ==>
      r == Err(Error(400, "Chỉ có thể xóa phòng trống"))
    ensures r.Err? ==> db.rooms == old(db.rooms) && db.roomServices == old(db.roomServices)
    ensures !RoomHasActiveContract(db.contracts, id) && id in old(db.rooms) && old(db.rooms)[id].status == Vacant ==>
      && (storageError <==> r.Err?)
      && (storageError ==> r.error.status == 500)
      && (!storageError ==> db.rooms == old(db.rooms) - {id}
                            && db.roomServices == Filter(old(db.roomServices), NotOfRoom(id)))
  {
    if exists k :: k in db.contracts && db.contracts[k].roomId == id && db.contracts[k].status == Active {
      return Err(Error(400, "Không thể xóa phòng đang được thuê"));
    }
    if id !in db.rooms {
      return Err(Error(404, "Không tìm thấy phòng"));
    }
    if db.rooms[id].status != Vacant {
      return Err(Error(400, "Chỉ có thể xóa phòng trống"));
    }
    if storageError {
      return Err(Error(500, "Lỗi khi xóa phòng"));
    }
    db.roomServices := Filter(db.roomServices, NotOfRoom(id));
    db.rooms := db.rooms - {id};
    r := Ok(());
  }

  /** Deleting a Vacant room keeps room statuses and leases consistent: a consistent
      store has no lease on a Vacant room that could be left dangling. */
  lemma RemoveVacantRoomKeepsConsistent(s: Leasing, id: int)
    requires Consistent(s) && id in s.rooms && s.rooms[id].status == Vacant
    ensures Consistent(Leasing(s.rooms - {id}, s.contracts))
  {
  }

  /** After a delete no link of the room is left. */
  lemma DeletedRoomHasNoServices(links: seq<RoomService>, services: map<int, Service>, id: int)
    ensures RoomServiceLines(Filter(links, NotOfRoom(id)), services, id) == []
  {
  }
}
