/** The contract controller: opening a lease (tenant upsert by phone, contract insert,
    room marked Occupied), editing it, terminating it, the contract detail view with
    its service-price fallback, the tenant search and the list's status filter. */
module Contracts {
  import opened Common
  import opened Sorting
  import opened Store

  // ---------------------------------------------------------------------------
  // Occupancy: the room's stored status against the leases that reference it

  /** A lease: a contract that is Active and current. */
  predicate IsLease(c: Contract) {
    c.status == Active && c.isCurrent
  }

  ghost predicate HasLease(contracts: map<int, Contract>, roomId: int) {
    exists id :: id in contracts && contracts[id].roomId == roomId && IsLease(contracts[id])
  }

  /** The two tables a lease change writes. */
  datatype Leasing = Leasing(rooms: map<int, Room>, contracts: map<int, Contract>)

  /** The stored room status agrees with the leases: a room is Occupied exactly when a
      lease references it, every lease references a room that exists, and no room has
      two leases. */
  ghost predicate Consistent(s: Leasing) {
    && (forall r :: r in s.rooms ==> (s.rooms[r].status == Occupied <==> HasLease(s.contracts, r)))
    && (forall id :: id in s.contracts && IsLease(s.contracts[id]) ==> s.contracts[id].roomId in s.rooms)
    && (forall a, b ::
          (a in s.contracts && b in s.contracts && IsLease(s.contracts[a]) && IsLease(s.contracts[b])
           && s.contracts[a].roomId == s.contracts[b].roomId) ==> a == b)
  }

  /** `UPDATE rooms SET status = ? WHERE room_id = ?`: no row changes when the id is unknown. */
  function SetRoomStatus(rooms: map<int, Room>, roomId: int, status: RoomStatus): (r: map<int, Room>)
    ensures r.Keys == rooms.Keys
    ensures roomId in rooms ==> r[roomId] == rooms[roomId].(status := status)
    ensures forall k :: k in rooms && k != roomId ==> r[k] == rooms[k]
  {
    if roomId in rooms then rooms[roomId := rooms[roomId].(status := status)] else rooms
  }

  /** The writes of a successful `createContract` to these tables: the contract is
      inserted and its room is marked Occupied, whatever the room's status was. */
  function Open(s: Leasing, id: int, c: Contract): (r: Leasing)
    ensures r.contracts.Keys == s.contracts.Keys + {id} && r.contracts[id] == c
    ensures forall k :: k in s.contracts && k != id ==> r.contracts[k] == s.contracts[k]
    ensures r.rooms.Keys == s.rooms.Keys
    ensures c.roomId in s.rooms ==> r.rooms[c.roomId] == s.rooms[c.roomId].(status := Occupied)
    ensures forall k :: k in s.rooms && k != c.roomId ==> r.rooms[k] == s.rooms[k]
  {
    Leasing(SetRoomStatus(s.rooms, c.roomId, Occupied), s.contracts[id := c])
  }

  /** The writes of `terminateContract(id)`. */
  function Close(s: Leasing, id: int): (r: Leasing)
    ensures id in s.contracts ==>
      && r.contracts == s.contracts[id := s.contracts[id].(status := Terminated, isCurrent := false)]
      && r.rooms == SetRoomStatus(s.rooms, s.contracts[id].roomId, Vacant)
    ensures id !in s.contracts ==> r == s
  {
    if id in s.contracts then
      var c := s.contracts[id];
      Leasing(SetRoomStatus(s.rooms, c.roomId, Vacant), s.contracts[id := c.(status := Terminated, isCurrent := false)])
    else
      s
  }

  /** Rewriting one contract leaves the leases of a room alone when neither the old
      nor the new row is a lease on that room. */
  lemma HasLeaseUnaffected(contracts: map<int, Contract>, id: int, c: Contract, roomId: int)
    requires !IsLease(c) || c.roomId != roomId
    requires id in contracts ==> !IsLease(contracts[id]) || contracts[id].roomId != roomId
    ensures HasLease(contracts[id := c], roomId) <==> HasLease(contracts, roomId)
  {
    var t := contracts[id := c];
    if HasLease(t, roomId) {
      var k :| k in t && t[k].roomId == roomId && IsLease(t[k]);
      assert k != id && k in contracts && contracts[k] == t[k];
    }
    if HasLease(contracts, roomId) {
      var k :| k in contracts && contracts[k].roomId == roomId && IsLease(contracts[k]);
      assert k != id && k in t && t[k] == contracts[k];
    }
  }

  /** Opening a lease on a Vacant room that exists keeps the tables consistent. */
  lemma OpenVacantKeepsConsistent(s: Leasing, id: int, c: Contract)
    requires Consistent(s) && id !in s.contracts && IsLease(c)
    requires c.roomId in s.rooms && s.rooms[c.roomId].status == Vacant
    ensures Consistent(Open(s, id, c))
  {
    var t := Open(s, id, c);
    forall r | r in t.rooms
      ensures t.rooms[r].status == Occupied <==> HasLease(t.contracts, r)
    {
      if r == c.roomId {
        assert t.contracts[id].roomId == r && IsLease(t.contracts[id]);
      } else {
        HasLeaseUnaffected(s.contracts, id, c, r);
      }
    }
  }

  /** `createContract` does not look at the room's status: opening a lease on an
      Occupied room leaves that room with two leases. */
  lemma OpenOccupiedDoubleBooks(s: Leasing, id: int, c: Contract)
    requires Consistent(s) && id !in s.contracts && IsLease(c)
    requires c.roomId in s.rooms && s.rooms[c.roomId].status == Occupied
    ensures !Consistent(Open(s, id, c))
  {
    var k :| k in s.contracts && s.contracts[k].roomId == c.roomId && IsLease(s.contracts[k]);
    var t := Open(s, id, c);
    assert k != id && t.contracts[k] == s.contracts[k] && t.contracts[id] == c;
  }

  /** After such a double booking, terminating the new contract marks the room Vacant
      although the earlier lease on it is still Active and current. */
  lemma TerminateAfterDoubleBookingVacatesLeasedRoom(s: Leasing, id: int, c: Contract)
    requires Consistent(s) && id !in s.contracts && IsLease(c)
    requires c.roomId in s.rooms && s.rooms[c.roomId].status == Occupied
    ensures var u := Close(Open(s, id, c), id);
      u.rooms[c.roomId].status == Vacant && HasLease(u.contracts, c.roomId)
  {
    var k :| k in s.contracts && s.contracts[k].roomId == c.roomId && IsLease(s.contracts[k]);
    var u := Close(Open(s, id, c), id);
    assert k != id && u.contracts[k] == s.contracts[k];
  }

  /** Terminating a lease, or a contract whose room has no lease, keeps the tables
      consistent. */
  lemma CloseKeepsConsistent(s: Leasing, id: int)
    requires Consistent(s)
    requires id in s.contracts ==> IsLease(s.contracts[id]) || !HasLease(s.contracts, s.contracts[id].roomId)
    ensures Consistent(Close(s, id))
  {
    if id in s.contracts {
      var c := s.contracts[id];
      var t := Close(s, id);
      var closed := c.(status := Terminated, isCurrent := false);
      forall r | r in t.rooms
        ensures t.rooms[r].status == Occupied <==> HasLease(t.contracts, r)
      {
        if r == c.roomId && IsLease(c) {
          forall k | k in t.contracts && t.contracts[k].roomId == r
            ensures !IsLease(t.contracts[k])
          {
            if k != id {
              assert t.contracts[k] == s.contracts[k];
            }
          }
        } else {
          HasLeaseUnaffected(s.contracts, id, closed, r);
        }
      }
    }
  }

  /** `terminateContract` does not look at the contract's state either: terminating a
      contract that is no longer a lease marks its room Vacant even when the room has
      since been let under another lease. */
  lemma CloseStaleVacatesLeasedRoom(s: Leasing, id: int)
    requires Consistent(s) && id in s.contracts && !IsLease(s.contracts[id])
    requires HasLease(s.contracts, s.contracts[id].roomId)
    ensures !Consistent(Close(s, id))
  {
    var roomId := s.contracts[id].roomId;
    var k :| k in s.contracts && s.contracts[k].roomId == roomId && IsLease(s.contracts[k]);
    var t := Close(s, id);
    assert k != id && t.contracts[k] == s.contracts[k];
    assert roomId in s.rooms;
    assert t.rooms[roomId].status == Vacant && HasLease(t.contracts, roomId);
  }

  // ---------------------------------------------------------------------------
  // createContract

  /** The fields of the create form (`req.body`). */
  datatype NewContract = NewContract(
    roomId: int,
    fullName: string,
    phone: string,
    idCardNumber: string,
    startDate: int,
    endDate: int,
    depositAmount: int,
    rentAmount: int,
    notes: string,
    password: Option<string>)

  /** The stored names of the uploaded files (`req.files`), each possibly absent. */
  datatype Uploads = Uploads(front: Option<string>, back: Option<string>, pdf: Option<string>)

  /** The password the tenant gets: the supplied one unless it is absent or blank, in
      which case the generated one. */
  function ChoosePassword(supplied: Option<string>, generated: string): (r: string)
    ensures supplied.Some? && !IsBlank(supplied.value) ==> r == supplied.value
    ensures supplied.None? || IsBlank(supplied.value) ==> r == generated
  {
    if supplied.None? || IsBlank(supplied.value) then generated else supplied.value
  }

  /** With a non-blank generator the tenant never gets a blank password. */
  lemma ChosenPasswordNotBlank(supplied: Option<string>, generated: string)
    requires !IsBlank(generated)
    ensures !IsBlank(ChoosePassword(supplied, generated))
  {
  }

  function UploadPath(name: string): string {
    "/uploads/" + name
  }

  /** The id-card photo paths, front first, then back. */
  function IdCardPhotos(u: Uploads): (r: seq<string>)
    ensures |r| == (if u.front.Some? then 1 else 0) + (if u.back.Some? then 1 else 0)
    ensures u.front.Some? ==> r[0] == UploadPath(u.front.value)
    ensures u.back.Some? ==> r[|r| - 1] == UploadPath(u.back.value)
  {
    (if u.front.Some? then [UploadPath(u.front.value)] else [])
    + (if u.back.Some? then [UploadPath(u.back.value)] else [])
  }

  /** An existing tenant with the form's phone, reactivated: active again, the new
      password, and new photos only when some were uploaded. */
  function Reactivated(t: Tenant, password: string, photos: seq<string>): (r: Tenant)
    ensures r.isActive && r.plainPassword == Some(password)
    ensures r.idCardPhotos == (if photos == [] then t.idCardPhotos else photos)
    ensures r.fullName == t.fullName && r.phone == t.phone
    ensures r.idCardNumber == t.idCardNumber && r.passwordHash == t.passwordHash
  {
    t.(isActive := true, plainPassword := Some(password),
       idCardPhotos := if |photos| > 0 then photos else t.idCardPhotos)
  }

  /** The placeholder id-card number of a new tenant: `'P_'` and a timestamp. */
  function PlaceholderIdCard(stamp: nat): string {
    "P_" + NatToString(stamp)
  }

  /** A tenant inserted by `createContract`: active, with the placeholder id-card
      number (the form's number is not used) and no password hash. */
  function Registered(req: NewContract, password: string, photos: seq<string>, stamp: nat): (r: Tenant)
    ensures r.isActive && r.plainPassword == Some(password) && r.passwordHash == None
    ensures r.fullName == req.fullName && r.phone == req.phone && r.idCardPhotos == photos
    ensures r.idCardNumber == PlaceholderIdCard(stamp)
  {
    Tenant(req.fullName, req.phone, PlaceholderIdCard(stamp), photos, Some(password), None, true)
  }

  /** The contract row `createContract` inserts: Active and current. */
  function Leased(req: NewContract, tenantId: int, pdf: Option<string>, now: int): (c: Contract)
    ensures IsLease(c) && c.roomId == req.roomId && c.tenantId == tenantId
  {
    Contract(req.roomId, tenantId, req.startDate, req.endDate, req.depositAmount, req.rentAmount,
             req.notes, if pdf.Some? then Some(UploadPath(pdf.value)) else None, Active, true, now)
  }

  ghost predicate PhoneTaken(tenants: map<int, Tenant>, phone: string) {
    exists k :: k in tenants && tenants[k].phone == phone
  }

  /** The tenant step of `createContract`: the tenant with the form's phone is
      reactivated, or a new one is inserted. */
  method UpsertTenant(db: Db, req: NewContract, password: string, photos: seq<string>, stamp: nat)
    returns (tenantId: int)
    requires db.Valid()
    modifies db`tenants, db`nextId
    ensures db.Valid() && old(db.nextId) <= db.nextId
    ensures PhoneTaken(old(db.tenants), req.phone) ==>
      && tenantId in old(db.tenants) && old(db.tenants)[tenantId].phone == req.phone
      && db.tenants == old(db.tenants)[tenantId := Reactivated(old(db.tenants)[tenantId], password, photos)]
    ensures !PhoneTaken(old(db.tenants), req.phone) ==>
      && tenantId !in old(db.tenants)
      && db.tenants == old(db.tenants)[tenantId := Registered(req, password, photos, stamp)]
  {
    if k :| k in db.tenants && db.tenants[k].phone == req.phone {
      tenantId := k;
      db.tenants := db.tenants[k := Reactivated(db.tenants[k], password, photos)];
    } else {
      tenantId := db.NewId();
      db.tenants := db.tenants[tenantId := Registered(req, password, photos, stamp)];
    }
  }

  /** The contract step of `createContract`: the contract row is inserted under a
      new id and its room marked Occupied. */
  method InsertLease(db: Db, c: Contract) returns (id: int)
    requires db.Valid()
    modifies db`contracts, db`rooms, db`nextId
    ensures db.Valid() && old(db.nextId) <= db.nextId
    ensures id !in old(db.contracts)
    ensures Leasing(db.rooms, db.contracts) == Open(Leasing(old(db.rooms), old(db.contracts)), id, c)
  {
    id := db.NewId();
    db.contracts := db.contracts[id := c];
    db.rooms := SetRoomStatus(db.rooms, c.roomId, Occupied);
  }

  /** `createContract`. On success the reply carries the tenant's password. The
      generated password, the timestamp of the placeholder id-card number and the
      creation instant are inputs. `storageError` stands for a failing statement:
      the transaction is then rolled back, which leaves every table as it was. */
  method CreateContract(db: Db, req: NewContract, files: Uploads, generated: string, stamp: nat,
                        now: int, storageError: bool)
    returns (r: Result<string>, ghost tenantId: int, ghost contractId: int)
    requires db.Valid()
    modifies db`tenants, db`contracts, db`rooms, db`nextId
    ensures db.Valid()
    ensures storageError ==>
      && r.Err? && r.error.status == 500
      && db.tenants == old(db.tenants) && db.contracts == old(db.contracts) && db.rooms == old(db.rooms)
    ensures !storageError ==> r == Ok(ChoosePassword(req.password, generated))
    ensures !storageError ==>
      && contractId !in old(db.contracts)
      && Leasing(db.rooms, db.contracts)
         == Open(Leasing(old(db.rooms), old(db.contracts)), contractId, Leased(req, tenantId, files.pdf, now))
    ensures !storageError && PhoneTaken(old(db.tenants), req.phone) ==>
      && tenantId in old(db.tenants) && old(db.tenants)[tenantId].phone == req.phone
      && db.tenants == old(db.tenants)[tenantId := Reactivated(old(db.tenants)[tenantId],
                                         ChoosePassword(req.password, generated), IdCardPhotos(files))]
    ensures !storageError && !PhoneTaken(old(db.tenants), req.phone) ==>
      && tenantId !in old(db.tenants)
      && db.tenants == old(db.tenants)[tenantId := Registered(req, ChoosePassword(req.password, generated),
                                                              IdCardPhotos(files), stamp)]
  {
    if storageError {
      return Err(Error(500, "Lỗi tạo hợp đồng")), 0, 0;
    }
    var password := ChoosePassword(req.password, generated);
    var tid := UpsertTenant(db, req, password, IdCardPhotos(files), stamp);
    var cid := InsertLease(db, Leased(req, tid, files.pdf, now));
    tenantId, contractId := tid, cid;
    r := Ok(password);
  }

  // ---------------------------------------------------------------------------
  // terminateContract

  /** `terminateContract(id)`: the contract and its room only; the tenant's row, and
      with it `is_active`, is outside the frame. */
  method TerminateContract(db: Db, id: int, storageError: bool) returns (r: Result<()>)
    requires db.Valid()
    modifies db`contracts, db`rooms
    ensures db.Valid()
    ensures storageError ==>
      r.Err? && r.error.status == 500 && db.contracts == old(db.contracts) && db.rooms == old(db.rooms)
    ensures !storageError ==>
      r.Ok? && Leasing(db.rooms, db.contracts) == Close(Leasing(old(db.rooms), old(db.contracts)), id)
  {
    if storageError {
      return Err(Error(500, "Lỗi chấm dứt hợp đồng"));
    }
    if id in db.contracts {
      db.contracts := db.contracts[id := db.contracts[id].(status := Terminated, isCurrent := false)];
    }
    if id in db.contracts {
      db.rooms := SetRoomStatus(db.rooms, db.contracts[id].roomId, Vacant);
    }
    r := Ok(());
  }

  /** After termination the contract is Terminated and not current, its room (when
      it exists) is Vacant, and every other contract and room is as it was. */
  lemma CloseEffect(s: Leasing, id: int)
    requires id in s.contracts
    ensures var t := Close(s, id);
      && t.contracts.Keys == s.contracts.Keys && t.rooms.Keys == s.rooms.Keys
      && t.contracts[id].status == Terminated && !t.contracts[id].isCurrent
      && t.contracts[id].roomId == s.contracts[id].roomId
      && (s.contracts[id].roomId in s.rooms ==> t.rooms[s.contracts[id].roomId].status == Vacant)
      && (forall k :: k in s.contracts && k != id ==> t.contracts[k] == s.contracts[k])
      && (forall k :: k in s.rooms && k != s.contracts[id].roomId ==> t.rooms[k] == s.rooms[k])
  {
  }

  // ---------------------------------------------------------------------------
  // updateContract

  /** The fields of the edit form. */
  datatype ContractEdit = ContractEdit(
    startDate: int,
    endDate: int,
    depositAmount: int,
    rentAmount: int,
    notes: string,
    fullName: string,
    phone: string,
    idCardNumber: Option<string>,
    password: Option<string>)

  predicate Supplied(s: Option<string>) {
    s.Some? && !IsBlank(s.value)
  }

  /** The five contract scalars are overwritten; nothing else about the contract
      (its room, tenant, status) changes. */
  function EditedContract(c: Contract, e: ContractEdit): (r: Contract)
    ensures r.startDate == e.startDate && r.endDate == e.endDate && r.notes == e.notes
    ensures r.depositAmount == e.depositAmount && r.rentAmount == e.rentAmount
    ensures r.(startDate := c.startDate, endDate := c.endDate, depositAmount := c.depositAmount,
               rentAmount := c.rentAmount, notes := c.notes) == c
  {
    c.(startDate := e.startDate, endDate := e.endDate, depositAmount := e.depositAmount,
       rentAmount := e.rentAmount, notes := e.notes)
  }

  /** Name and phone are overwritten; the id-card number only by a non-blank value,
      stored trimmed; the password (plain and hashed) only by a non-blank value. */
  function EditedTenant(t: Tenant, e: ContractEdit, hash: string): (r: Tenant)
    ensures r.fullName == e.fullName && r.phone == e.phone
    ensures r.idCardNumber == (if Supplied(e.idCardNumber) then Trim(e.idCardNumber.value) else t.idCardNumber)
    ensures Supplied(e.password) ==> r.plainPassword == e.password && r.passwordHash == Some(hash)
    ensures !Supplied(e.password) ==> r.plainPassword == t.plainPassword && r.passwordHash == t.passwordHash
    ensures r.isActive == t.isActive && r.idCardPhotos == t.idCardPhotos
  {
    var t1 := t.(fullName := e.fullName, phone := e.phone);
    var t2 := if Supplied(e.idCardNumber) then t1.(idCardNumber := Trim(e.idCardNumber.value)) else t1;
    if Supplied(e.password) then t2.(passwordHash := Some(hash), plainPassword := e.password) else t2
  }

  /** A changed id-card number is never blank and already trimmed. */
  lemma EditedIdCardIsTrimmed(t: Tenant, e: ContractEdit, hash: string)
    requires EditedTenant(t, e, hash).idCardNumber != t.idCardNumber
    ensures var n := EditedTenant(t, e, hash).idCardNumber; n != "" && Trim(n) == n
  {
    TrimIdempotent(e.idCardNumber.value);
  }

  /** `updateContract(id)`: the contract row and its tenant's row; rooms are outside
      the frame. An unknown id changes nothing. */
  method UpdateContract(db: Db, id: int, e: ContractEdit, hash: string, storageError: bool)
    returns (r: Result<()>)
    modifies db`contracts, db`tenants
    ensures storageError ==>
      r.Err? && r.error.status == 500 && db.contracts == old(db.contracts) && db.tenants == old(db.tenants)
    ensures !storageError ==> r.Ok?
    ensures !storageError && id in old(db.contracts) ==>
      db.contracts == old(db.contracts)[id := EditedContract(old(db.contracts)[id], e)]
    ensures !storageError && id in old(db.contracts) && old(db.contracts)[id].tenantId in old(db.tenants) ==>
      var tid := old(db.contracts)[id].tenantId;
      db.tenants == old(db.tenants)[tid := EditedTenant(old(db.tenants)[tid], e, hash)]
    ensures !storageError && id in old(db.contracts) && old(db.contracts)[id].tenantId !in old(db.tenants) ==>
      db.tenants == old(db.tenants)
    ensures !storageError && id !in old(db.contracts) ==>
      db.contracts == old(db.contracts) && db.tenants == old(db.tenants)
  {
    if storageError {
      return Err(Error(500, "Lỗi cập nhật"));
    }
    if id in db.contracts {
      db.contracts := db.contracts[id := EditedContract(db.contracts[id], e)];
      var tid := db.contracts[id].tenantId;
      if tid in db.tenants {
        db.tenants := db.tenants[tid := EditedTenant(db.tenants[tid], e, hash)];
      }
    }
    r := Ok(());
  }

  // ---------------------------------------------------------------------------
  // getContractById

  /** One priced service as the detail view shows it. */
  datatype ServiceLine = ServiceLine(name: string, serviceType: string, unitPrice: string)

  /** The room's priced services (`room_services` joined with `services`), in storage
      order; a link to a missing service drops out of the join. */
  function RoomServiceLines(links: seq<RoomService>, services: map<int, Service>, roomId: int)
    : (r: seq<ServiceLine>)
    ensures |r| <= |links|
    ensures r == [] <==> forall i :: 0 <= i < |links| ==> links[i].roomId != roomId || links[i].serviceId !in services
  {
    if links == [] then []
    else
      var l := links[0];
      var rest := RoomServiceLines(links[1..], services, roomId);
      assert forall i :: 1 <= i < |links| ==> links[i] == links[1..][i - 1];
      if l.roomId == roomId && l.serviceId in services then
        [ServiceLine(services[l.serviceId].name, services[l.serviceId].serviceType, l.price)] + rest
      else
        rest
  }

  /** Whether a room link belongs to the room and names an existing service. */
  predicate RoomLinkShown(l: RoomService, services: map<int, Service>, roomId: int) {
    l.roomId == roomId && l.serviceId in services
  }

  /** The line a shown room link contributes: the service's name and type, the link's price. */
  function RoomLine(l: RoomService, services: map<int, Service>): ServiceLine
    requires l.serviceId in services
  {
    ServiceLine(services[l.serviceId].name, services[l.serviceId].serviceType, l.price)
  }

  /** Every shown link of the room yields its line, and every line comes from a
      shown link. */
  lemma {:induction false} RoomServiceLinesMembership(links: seq<RoomService>, services: map<int, Service>,
                                                      roomId: int)
    ensures forall i :: 0 <= i < |links| && RoomLinkShown(links[i], services, roomId) ==>
      RoomLine(links[i], services) in RoomServiceLines(links, services, roomId)
    ensures forall j :: 0 <= j < |RoomServiceLines(links, services, roomId)| ==>
      exists i :: 0 <= i < |links| && RoomLinkShown(links[i], services, roomId)
                  && RoomServiceLines(links, services, roomId)[j] == RoomLine(links[i], services)
  {
    if links != [] {
      RoomServiceLinesMembership(links[1..], services, roomId);
      var r := RoomServiceLines(links, services, roomId);
      var tail := RoomServiceLines(links[1..], services, roomId);
      var head := if RoomLinkShown(links[0], services, roomId) then [RoomLine(links[0], services)] else [];
      assert r == head + tail;
      forall i | 0 <= i < |links| && RoomLinkShown(links[i], services, roomId)
        ensures RoomLine(links[i], services) in r
      {
        if i > 0 {
          assert links[1..][i - 1] == links[i];
        }
      }
      forall j | 0 <= j < |r|
        ensures exists i :: 0 <= i < |links| && RoomLinkShown(links[i], services, roomId)
                            && r[j] == RoomLine(links[i], services)
      {
        if j < |head| {
          assert RoomLinkShown(links[0], services, roomId) && r[j] == RoomLine(links[0], services);
        } else {
          var i :| 0 <= i < |links[1..]| && RoomLinkShown(links[1..][i], services, roomId)
                   && tail[j - |head|] == RoomLine(links[1..][i], services);
          assert links[i + 1] == links[1..][i];
        }
      }
    } else {
      assert RoomServiceLines(links, services, roomId) == [];
    }
  }

  /** Whether a house link belongs to the house and names an existing service. */
  predicate HouseLinkShown(l: HouseService, services: map<int, Service>, houseId: int) {
    l.houseId == houseId && l.serviceId in services
  }

  /** The line a shown house link contributes: the service's name and type, the link's price. */
  function HouseLine(l: HouseService, services: map<int, Service>): ServiceLine
    requires l.serviceId in services
  {
    ServiceLine(services[l.serviceId].name, services[l.serviceId].serviceType, l.price)
  }

  /** The house's priced services (`house_services` joined with `services`), in
      storage order; a link to a missing service drops out of the join. */
  function HouseServiceLines(links: seq<HouseService>, services: map<int, Service>, houseId: int)
    : (r: seq<ServiceLine>)
    ensures |r| <= |links|
    ensures r == [] <==> forall i :: 0 <= i < |links| ==> !HouseLinkShown(links[i], services, houseId)
  {
    if links == [] then []
    else
      var l := links[0];
      var rest := HouseServiceLines(links[1..], services, houseId);
      assert forall i :: 1 <= i < |links| ==> links[i] == links[1..][i - 1];
      if l.houseId == houseId && l.serviceId in services then
        [ServiceLine(services[l.serviceId].name, services[l.serviceId].serviceType, l.price)] + rest
      else
        rest
  }

  /** Every shown link of the house yields its line, and every line comes from a
      shown link. */
  lemma {:induction false} HouseServiceLinesMembership(links: seq<HouseService>, services: map<int, Service>,
                                                       houseId: int)
    ensures forall i :: 0 <= i < |links| && HouseLinkShown(links[i], services, houseId) ==>
      HouseLine(links[i], services) in HouseServiceLines(links, services, houseId)
    ensures forall j :: 0 <= j < |HouseServiceLines(links, services, houseId)| ==>
      exists i :: 0 <= i < |links| && HouseLinkShown(links[i], services, houseId)
                  && HouseServiceLines(links, services, houseId)[j] == HouseLine(links[i], services)
  {
    if links != [] {
      HouseServiceLinesMembership(links[1..], services, houseId);
      var r := HouseServiceLines(links, services, houseId);
      var tail := HouseServiceLines(links[1..], services, houseId);
      var head := if HouseLinkShown(links[0], services, houseId) then [HouseLine(links[0], services)] else [];
      assert r == head + tail;
      forall i | 0 <= i < |links| && HouseLinkShown(links[i], services, houseId)
        ensures HouseLine(links[i], services) in r
      {
        if i > 0 {
          assert links[1..][i - 1] == links[i];
        }
      }
      forall j | 0 <= j < |r|
        ensures exists i :: 0 <= i < |links| && HouseLinkShown(links[i], services, houseId)
                            && r[j] == HouseLine(links[i], services)
      {
        if j < |head| {
          assert HouseLinkShown(links[0], services, houseId) && r[j] == HouseLine(links[0], services);
        } else {
          var i :| 0 <= i < |links[1..]| && HouseLinkShown(links[1..][i], services, houseId)
                   && tail[j - |head|] == HouseLine(links[1..][i], services);
          assert links[i + 1] == links[1..][i];
        }
      }
    } else {
      assert HouseServiceLines(links, services, houseId) == [];
    }
  }

  /** The lines keep the links' order: over two runs of links they are the first
      run's lines, then the second's. */
  lemma {:induction false} HouseServiceLinesAppend(a: seq<HouseService>, b: seq<HouseService>,
                                                   services: map<int, Service>, houseId: int)
    ensures HouseServiceLines(a + b, services, houseId)
         == HouseServiceLines(a, services, houseId) + HouseServiceLines(b, services, houseId)
  {
    if a == [] {
      assert a + b == b;
    } else {
      assert (a + b)[0] == a[0] && (a + b)[1..] == a[1..] + b;
      HouseServiceLinesAppend(a[1..], b, services, houseId);
      var x := HouseServiceLines(a[1..], services, houseId);
      var y := HouseServiceLines(b, services, houseId);
      if HouseLinkShown(a[0], services, houseId) {
        assert [HouseLine(a[0], services)] + (x + y) == ([HouseLine(a[0], services)] + x) + y;
      }
    }
  }

  /** `rent_amount || base_rent || 0` (NULL reads as 0). */
  function EffectiveRent(rent: int, baseRent: int): (r: int)
    ensures rent != 0 ==> r == rent
    ensures rent == 0 ==> r == baseRent
  {
    if rent != 0 then rent else baseRent
  }

  /** The detail view of a contract. */
  datatype ContractView = ContractView(
    contract: Contract,
    tenant: Tenant,
    room: Room,
    services: seq<ServiceLine>,
    rentAmount: int)

  /** `getContractById(id)`: 404 unless the contract and the tenant and room it joins
      with exist. The services are the room's own list when it is non-empty and the
      house's list otherwise, never a mixture; the rent falls back to the room's base
      rent. */
  function ContractDetails(db: Leasing, tenants: map<int, Tenant>, services: map<int, Service>,
                           roomLinks: seq<RoomService>, houseLinks: seq<HouseService>, id: int)
    : (r: Result<ContractView>)
    ensures r.Err? <==> !(id in db.contracts && db.contracts[id].tenantId in tenants
                          && db.contracts[id].roomId in db.rooms)
    ensures r.Err? ==> r.error.status == 404
    ensures r.Ok? ==>
      var c := db.contracts[id];
      var own := RoomServiceLines(roomLinks, services, c.roomId);
      && r.value.contract == c && r.value.tenant == tenants[c.tenantId] && r.value.room == db.rooms[c.roomId]
      && (own != [] ==> r.value.services == own)
      && (own == [] ==> r.value.services == HouseServiceLines(houseLinks, services, db.rooms[c.roomId].houseId))
      && r.value.rentAmount == EffectiveRent(c.rentAmount, db.rooms[c.roomId].baseRent)
  {
    if id in db.contracts && db.contracts[id].tenantId in tenants && db.contracts[id].roomId in db.rooms then
      var c := db.contracts[id];
      var room := db.rooms[c.roomId];
      var own := RoomServiceLines(roomLinks, services, c.roomId);
      var lines := if |own| > 0 then own else HouseServiceLines(houseLinks, services, room.houseId);
      Ok(ContractView(c, tenants[c.tenantId], room, lines, EffectiveRent(c.rentAmount, room.baseRent)))
    else
      Err(Error(404, "Không tìm thấy hợp đồng"))
  }

  /** A room link to an existing service puts a line in the room's own list, so the
      house list is then never consulted. */
  lemma OwnServicesWin(db: Leasing, tenants: map<int, Tenant>, services: map<int, Service>,
                       roomLinks: seq<RoomService>, houseLinks: seq<HouseService>, id: int, i: int)
    requires ContractDetails(db, tenants, services, roomLinks, houseLinks, id).Ok?
    requires 0 <= i < |roomLinks| && roomLinks[i].roomId == db.contracts[id].roomId
    requires roomLinks[i].serviceId in services
    ensures ContractDetails(db, tenants, services, roomLinks, houseLinks, id).value.services
         == RoomServiceLines(roomLinks, services, db.contracts[id].roomId)
  {
  }

  // ---------------------------------------------------------------------------
  // searchTenant

  /** `searchTenant`: 400 when neither a phone nor an id-card number is given; the
      phone is used when given, the id-card number otherwise; no match is a null
      reply, not an error. The reply names the matching tenant's id. */
  method SearchTenant(db: Db, phone: Option<string>, idCard: Option<string>) returns (r: Result<Option<int>>)
    ensures !Truthy(phone) && !Truthy(idCard) <==> r.Err?
    ensures r.Err? ==> r.error.status == 400
    ensures Truthy(phone) && r.Ok? ==>
      (r.value.Some? ==> r.value.value in db.tenants && db.tenants[r.value.value].phone == phone.value)
      && (r.value.None? <==> !PhoneTaken(db.tenants, phone.value))
    ensures !Truthy(phone) && r.Ok? ==>
      (r.value.Some? ==> r.value.value in db.tenants && db.tenants[r.value.value].idCardNumber == idCard.value)
      && (r.value.None? <==> forall k :: k in db.tenants ==> db.tenants[k].idCardNumber != idCard.value)
  {
    if !Truthy(phone) && !Truthy(idCard) {
      return Err(Error(400, "Cần cung cấp số điện thoại hoặc số CCCD"));
    }
    if Truthy(phone) {
      if k :| k in db.tenants && db.tenants[k].phone == phone.value {
        r := Ok(Some(k));
      } else {
        r := Ok(None);
      }
    } else {
      if k :| k in db.tenants && db.tenants[k].idCardNumber == idCard.value {
        r := Ok(Some(k));
      } else {
        r := Ok(None);
      }
    }
  }

  // ---------------------------------------------------------------------------
  // getContracts: the status filter and the order

  function StatusName(s: ContractStatus): string {
    match s
    case Active => "Active"
    case Terminated => "Terminated"
    case Expired => "Expired"
  }

  function NewestFirst(c: Contract): Key {
    Key(-c.createdAt, 0)
  }

  function HasStatus(name: string): Contract -> bool {
    (c: Contract) => StatusName(c.status) == name
  }

  /** `getContracts`: a status other than absent, empty or `All` keeps the contracts
      with exactly that status; the list is newest first. */
  function ListContracts(rows: seq<Contract>, status: Option<string>): (r: seq<Contract>)
    ensures SortedBy(r, NewestFirst)
  {
    var kept := if Truthy(status) && status.value != "All" then Filter(rows, HasStatus(status.value)) else rows;
    SortBy(kept, NewestFirst)
  }

  /** The list holds exactly the contracts that pass the filter. */
  lemma ListContractsMembership(rows: seq<Contract>, status: Option<string>, c: Contract)
    ensures c in ListContracts(rows, status)
        <==> c in rows && (!Truthy(status) || status.value == "All" || StatusName(c.status) == status.value)
  {
    var kept := if Truthy(status) && status.value != "All" then Filter(rows, HasStatus(status.value)) else rows;
    SortByMembership(kept, NewestFirst, c);
    if Truthy(status) {
      FilterMembership(rows, HasStatus(status.value), c);
    }
  }

  /** A status name no contract can have lists nothing. */
  lemma ListContractsUnknownStatus(rows: seq<Contract>, status: string)
    requires status != "" && status != "All" && status != "Active" && status != "Terminated" && status != "Expired"
    ensures ListContracts(rows, Some(status)) == []
  {
    if ListContracts(rows, Some(status)) != [] {
      var c := ListContracts(rows, Some(status))[0];
      ListContractsMembership(rows, Some(status), c);
    }
  }
}
