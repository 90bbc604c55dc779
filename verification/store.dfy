/** The relational store the controllers read and write: one map per table keyed by
    the row's id, and a sequence for the link tables whose rows the code only ever
    reads back in insertion order (`room_services`, `house_services` and
    `invoice_details`, whose auto-increment `usage_id` is the insertion order). */
module Store {
  import opened Common

  datatype RoomStatus = Vacant | Occupied

  datatype ContractStatus = Active | Terminated | Expired

  /** A row of `rooms`. A NULL `base_rent` reads as 0. */
  datatype Room = Room(
    houseId: int,
    roomNumber: string,
    floor: Option<string>,
    area: Option<string>,
    baseRent: int,
    facilities: Option<string>,
    status: RoomStatus)

  /** A row of `tenants`. `idCardPhotos` is the decoded JSON array of upload paths. */
  datatype Tenant = Tenant(
    fullName: string,
    phone: string,
    idCardNumber: string,
    idCardPhotos: seq<string>,
    plainPassword: Option<string>,
    passwordHash: Option<string>,
    isActive: bool)

  /** A row of `contracts`. Dates are day numbers, `createdAt` an instant in seconds;
      a NULL amount reads as 0. */
  datatype Contract = Contract(
    roomId: int,
    tenantId: int,
    startDate: int,
    endDate: int,
    depositAmount: int,
    rentAmount: int,
    notes: string,
    fileUrl: Option<string>,
    status: ContractStatus,
    isCurrent: bool,
    createdAt: int)

  /** A row of `invoices`. `status` is free text: the status update stores whatever it
      is given. `paidDate` is an instant in seconds. */
  datatype Invoice = Invoice(
    contractId: int,
    billingPeriod: Option<string>,
    issueDate: int,
    dueDate: int,
    roomRent: int,
    totalAmount: int,
    status: string,
    paidDate: Option<int>,
    notes: string,
    invoiceType: string)

  /** A row of `invoice_details`; the readings are stored as the text the form sent. */
  datatype InvoiceDetail = InvoiceDetail(
    invoiceId: int,
    previousReading: Option<string>,
    currentReading: Option<string>,
    unitPrice: int,
    amount: int)

  /** A row of `maintenance_requests`; `status` is free text for the same reason as
      an invoice's. Instants are in seconds. */
  datatype MaintenanceRequest = MaintenanceRequest(
    roomId: int,
    tenantId: int,
    title: string,
    description: string,
    status: string,
    requestDate: int,
    resolvedDate: Option<int>,
    resolutionNote: Option<string>)

  /** A row of `services`. */
  datatype Service = Service(name: string, serviceType: string)

  /** A row of `room_services`: a service priced for one room. */
  datatype RoomService = RoomService(roomId: int, serviceId: int, price: string)

  /** A row of `house_services`: a service priced for every room of a house. */
  datatype HouseService = HouseService(houseId: int, serviceId: int, price: string)

  /** A row of `landlords`. */
  datatype Landlord = Landlord(
    fullName: string,
    phone: string,
    email: string,
    passwordHash: string,
    address: Option<string>)

  /** The database. Every table's ids come from one auto-increment counter, so a new id
      is fresh in every table at once. */
  class Db {
    var rooms: map<int, Room>
    var tenants: map<int, Tenant>
    var contracts: map<int, Contract>
    var invoices: map<int, Invoice>
    var invoiceDetails: seq<InvoiceDetail>
    var maintenance: map<int, MaintenanceRequest>
    var services: map<int, Service>
    var roomServices: seq<RoomService>
    var houseServices: seq<HouseService>
    var landlords: map<int, Landlord>
    var nextId: int

    /** Every id in use lies below the counter. */
    ghost predicate Valid()
      reads this
    {
      && 1 <= nextId
      && (forall id | id in rooms || id in tenants || id in contracts || id in invoices
                      || id in maintenance || id in services || id in landlords :: id < nextId)
      && (forall i :: 0 <= i < |invoiceDetails| ==> invoiceDetails[i].invoiceId < nextId)
    }

    /** `id` names no row of any table, and no detail row points at it. */
    ghost predicate Fresh(id: int)
      reads this
    {
      && id !in rooms && id !in tenants && id !in contracts && id !in invoices
      && id !in maintenance && id !in services && id !in landlords
      && (forall i :: 0 <= i < |invoiceDetails| ==> invoiceDetails[i].invoiceId != id)
    }

    constructor()
      ensures Valid()
      ensures rooms == map[] && tenants == map[] && contracts == map[] && invoices == map[]
      ensures maintenance == map[] && services == map[] && landlords == map[]
      ensures invoiceDetails == [] && roomServices == [] && houseServices == []
    {
      rooms, tenants, contracts, invoices := map[], map[], map[], map[];
      maintenance, services, landlords := map[], map[], map[];
      invoiceDetails, roomServices, houseServices := [], [], [];
      nextId := 1;
    }

    /** The next auto-increment value; it is never handed out again, even when the
        transaction that drew it is rolled back. */
    method NewId() returns (id: int)
      requires Valid()
      modifies this`nextId
      ensures Valid() && Fresh(id)
      ensures id == old(nextId) && nextId == id + 1
    {
      id := nextId;
      nextId := nextId + 1;
    }
  }
}
