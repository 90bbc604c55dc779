/** The landlord's property page: the service rows of the house and room forms, the
    rows the room form starts with, the house tab that is selected, and the checks
    the two submit buttons make before sending. */
module PropertyPage {
  import opened Common
  import Rooms
  import Contracts

  /** One row of a service list as its inputs hold it: the name, the option selected
      in the type list and the price, all text. */
  datatype ServiceRow = ServiceRow(name: string, serviceType: string, price: string)

  /** A service as the form sends it: trimmed name, selected type, digits of the price. */
  datatype CollectedService = CollectedService(name: string, serviceType: string, price: string)

  /** A row is sent when its trimmed name and its price's digits are both non-empty. */
  predicate Keeps(row: ServiceRow) {
    Trim(row.name) != "" && DigitsOnly(row.price) != ""
  }

  function Cleaned(row: ServiceRow): CollectedService {
    CollectedService(Trim(row.name), row.serviceType, DigitsOnly(row.price))
  }

  /** The services a list sends: the kept rows, cleaned, in row order. */
  function KeptServices(rows: seq<ServiceRow>): (r: seq<CollectedService>)
    ensures |r| <= |rows|
  {
    FilterMap(rows, Keeps, Cleaned)
  }

  /** `collectServices`: reads the rows one by one and pushes each kept row. */
  method CollectServices(rows: seq<ServiceRow>) returns (services: seq<CollectedService>)
    ensures services == KeptServices(rows)
  {
    services := [];
    for i := 0 to |rows|
      invariant services == KeptServices(rows[..i])
    {
      var row := rows[i];
      var name := Trim(row.name);
      var serviceType := row.serviceType;
      var price := DigitsOnly(row.price);
      assert rows[..i + 1] == rows[..i] + [row];
      FilterMapSnoc(rows[..i], row, Keeps, Cleaned);
      if name != "" && price != "" {
        services := services + [CollectedService(name, serviceType, price)];
      }
    }
    assert rows[..|rows|] == rows;
  }

  /** A row contributes a service exactly when it is kept: every kept row's cleaned
      form is sent, and everything sent is the cleaned form of a kept row. */
  lemma KeptServicesMembership(rows: seq<ServiceRow>)
    ensures forall i :: 0 <= i < |rows| && Keeps(rows[i]) ==> Cleaned(rows[i]) in KeptServices(rows)
    ensures forall j :: 0 <= j < |KeptServices(rows)| ==> ComesFrom(rows, KeptServices(rows)[j])
  {
    FilterMapMembership(rows, Keeps, Cleaned);
    forall j | 0 <= j < |KeptServices(rows)|
      ensures ComesFrom(rows, KeptServices(rows)[j])
    {
      assert KeptServices(rows)[j] == FilterMap(rows, Keeps, Cleaned)[j];
    }
  }

  /** `c` is the cleaned form of some kept row. */
  predicate ComesFrom(rows: seq<ServiceRow>, c: CollectedService) {
    exists i :: 0 <= i < |rows| && Keeps(rows[i]) && Cleaned(rows[i]) == c
  }

  /** Every service sent has a trimmed, non-empty name and a non-empty price made of
      digits only. */
  lemma KeptServicesSendable(rows: seq<ServiceRow>)
    ensures forall j :: 0 <= j < |KeptServices(rows)| ==> Sendable(KeptServices(rows)[j])
  {
    KeptServicesMembership(rows);
    forall j | 0 <= j < |KeptServices(rows)|
      ensures Sendable(KeptServices(rows)[j])
    {
      var i :| 0 <= i < |rows| && Keeps(rows[i]) && Cleaned(rows[i]) == KeptServices(rows)[j];
      SendableCleaned(rows[i]);
    }
  }

  lemma SendableCleaned(row: ServiceRow)
    requires Keeps(row)
    ensures Sendable(Cleaned(row))
  {
  }

  /** What every sent service satisfies. */
  predicate Sendable(c: CollectedService) {
    && c.name != "" && !IsWhitespace(c.name[0]) && !IsWhitespace(c.name[|c.name| - 1])
    && c.price != "" && AllDigits(c.price)
  }

  /** The services keep the order of their rows: what the rows before a kept row
      send comes first, then that row's service. */
  lemma KeptServicesOrder(before: seq<ServiceRow>, row: ServiceRow, after: seq<ServiceRow>)
    requires Keeps(row)
    ensures var s := KeptServices(before + [row] + after);
      && |KeptServices(before)| < |s|
      && s[|KeptServices(before)|] == Cleaned(row)
      && s[..|KeptServices(before)|] == KeptServices(before)
  {
    FilterMapAppend(before + [row], after, Keeps, Cleaned);
    FilterMapSnoc(before, row, Keeps, Cleaned);
  }

  /** A service put back into a form row, as reopening the form with it would. */
  function AsRow(c: CollectedService): ServiceRow {
    ServiceRow(c.name, c.serviceType, c.price)
  }

  function AsRows(services: seq<CollectedService>): (r: seq<ServiceRow>)
    ensures |r| == |services|
    ensures forall j :: 0 <= j < |r| ==> r[j] == AsRow(services[j])
  {
    if services == [] then [] else [AsRow(services[0])] + AsRows(services[1..])
  }

  /** A sendable service put back into a row is kept and cleans to itself. */
  lemma RecollectOne(c: CollectedService)
    requires Sendable(c)
    ensures Keeps(AsRow(c)) && Cleaned(AsRow(c)) == c
  {
    TrimUntrimmed(c.name);
    DigitsOnlyFixpoint(c.price);
  }

  /** Sendable services put back into rows are all kept and come out unchanged. */
  lemma {:induction false} RecollectSendable(services: seq<CollectedService>)
    requires forall j :: 0 <= j < |services| ==> Sendable(services[j])
    ensures KeptServices(AsRows(services)) == services
  {
    if services != [] {
      var c := services[0];
      var rows := AsRows(services);
      RecollectSendable(services[1..]);
      RecollectOne(c);
      assert rows == [AsRow(c)] + AsRows(services[1..]);
      FilterMapCons(AsRow(c), AsRows(services[1..]), Keeps, Cleaned);
      assert services == [c] + services[1..];
    }
  }

  /** Collecting twice changes nothing: the services sent, put back into rows, are
      sent again unchanged. */
  lemma CollectIdempotent(rows: seq<ServiceRow>)
    ensures KeptServices(AsRows(KeptServices(rows))) == KeptServices(rows)
  {
    KeptServicesSendable(rows);
    RecollectSendable(KeptServices(rows));
  }

  /** The services sent, as the room update reads its `services` field. */
  function AsInputs(services: seq<CollectedService>): seq<Rooms.ServiceInput> {
    seq(|services|, j requires 0 <= j < |services| =>
      Rooms.ServiceInput(Some(services[j].name), Some(services[j].serviceType), Some(services[j].price)))
  }

  /** Read by the room update's rules, the services a form sends are all kept (none
      is dropped by the server's own name-and-price filter) and ask for exactly their
      lines, in order. Every row's type comes from the type list, so it is non-empty. */
  lemma CollectedServicesAllKeptByServer(rows: seq<ServiceRow>)
    requires forall i :: 0 <= i < |rows| ==> rows[i].serviceType != ""
    ensures var inputs := AsInputs(KeptServices(rows));
      var lines := Rooms.RequestedLines(inputs);
      && Filter(inputs, Rooms.Kept) == inputs
      && |lines| == |KeptServices(rows)|
      && forall j :: 0 <= j < |lines| ==>
           lines[j] == Contracts.ServiceLine(KeptServices(rows)[j].name, KeptServices(rows)[j].serviceType,
                                         KeptServices(rows)[j].price)
  {
    var s := KeptServices(rows);
    var inputs := AsInputs(s);
    KeptServicesMembership(rows);
    assert forall j :: 0 <= j < |s| ==> s[j].serviceType != "";
    FilterAll(inputs, Rooms.Kept);
  }

  // ---------------------------------------------------------------------------
  // checkAndOpenRoomModal

  /** What the add-room button does: alert without a house, or open the room form
      with these service rows. */
  datatype RoomModal = Aborted(alert: string) | Opened(rows: seq<ServiceRow>)

  /** A house service as the page receives it. */
  datatype HouseServiceRow = HouseServiceRow(name: string, serviceType: string, price: string)

  /** The type list's options; a row whose type is none of them shows the first. */
  const TypeOptions: seq<string> := ["Theo số (kWh/khối)", "Theo tháng", "Theo người"]

  function SelectedType(t: string): (r: string)
    ensures r in TypeOptions
    ensures t in TypeOptions ==> r == t
  {
    if t in TypeOptions then t else TypeOptions[0]
  }

  /** `createServiceRowHtml(name, type, price)` as the inputs then hold it. */
  function RowOf(name: string, serviceType: string, price: string): ServiceRow {
    ServiceRow(name, SelectedType(serviceType), price)
  }

  /** `checkAndOpenRoomModal`: no house selected stops with an alert; otherwise the
      house's services are copied into the form, or two default rows are offered when
      it has none; when fetching them fails (None) one empty monthly row is shown. */
  function OpenRoomModal(currentHouseId: Option<int>, fetched: Option<seq<HouseServiceRow>>): (r: RoomModal)
    ensures r.Aborted? <==> currentHouseId.None? || currentHouseId.value == 0
    ensures r.Aborted? ==> r.alert == "Vui lòng chọn hoặc tạo một Nhà trọ trước khi thêm phòng!"
    ensures r.Opened? && fetched.None? ==> r.rows == [ServiceRow("", "Theo tháng", "")]
    ensures r.Opened? && fetched == Some([]) ==>
      r.rows == [ServiceRow("Điện", "Theo số (kWh/khối)", "3500"), ServiceRow("Nước", "Theo người", "100000")]
    ensures r.Opened? && fetched.Some? && fetched.value != [] ==>
      && |r.rows| == |fetched.value|
      && forall i :: 0 <= i < |r.rows| ==>
           r.rows[i].name == fetched.value[i].name && r.rows[i].price == fetched.value[i].price
           && r.rows[i].serviceType in TypeOptions
           && (fetched.value[i].serviceType in TypeOptions ==> r.rows[i].serviceType == fetched.value[i].serviceType)
  {
    if currentHouseId.None? || currentHouseId.value == 0 then
      Aborted("Vui lòng chọn hoặc tạo một Nhà trọ trước khi thêm phòng!")
    else match fetched
      case None => Opened([RowOf("", "Theo tháng", "")])
      case Some(services) =>
        if |services| > 0 then
          Opened(seq(|services|, i requires 0 <= i < |services| =>
                       RowOf(services[i].name, services[i].serviceType, services[i].price)))
        else
          Opened([RowOf("Điện", "Theo số (kWh/khối)", "3500"), RowOf("Nước", "Theo người", "100000")])
  }

  /** Submitting the room form of a house without services untouched sends both
      suggested services as they are shown. */
  lemma UntouchedRoomFormServices(houseId: int)
    requires houseId != 0
    ensures KeptServices(OpenRoomModal(Some(houseId), Some([])).rows) == DefaultServices
  {
    DefaultServicesSendable();
    RecollectSendable(DefaultServices);
    assert OpenRoomModal(Some(houseId), Some([])).rows == AsRows(DefaultServices);
  }

  /** The fallback row shown when the house's services cannot be fetched sends
      nothing unless it is filled in. */
  lemma UntouchedFallbackSendsNothing(houseId: int)
    requires houseId != 0
    ensures KeptServices(OpenRoomModal(Some(houseId), None).rows) == []
  {
    var empty := ServiceRow("", "Theo tháng", "");
    assert OpenRoomModal(Some(houseId), None).rows == [empty];
    FilterMapCons(empty, [], Keeps, Cleaned);
    assert [empty] + [] == [empty];
  }

  /** The two services the room form suggests for a house without any. */
  const DefaultServices: seq<CollectedService> :=
    [CollectedService("Điện", "Theo số (kWh/khối)", "3500"), CollectedService("Nước", "Theo người", "100000")]

  lemma DefaultServicesSendable()
    ensures forall j :: 0 <= j < |DefaultServices| ==> Sendable(DefaultServices[j])
  {
  }

  // ---------------------------------------------------------------------------
  // The selected house and the submit buttons

  /** The house form's request body (`landlord_id` is fixed at 1). */
  datatype HousePayload = HousePayload(name: string, address: string, description: string, landlordId: int,
                                       services: seq<CollectedService>)

  /** The room form's request body. */
  datatype RoomPayload = RoomPayload(houseId: int, roomNumber: string, floor: string, area: string, rent: string,
                                     facilities: string, services: seq<CollectedService>)

  /** What a submit handler does: alert and send nothing, or send a request. */
  datatype Submission<+T> = Rejected(alert: string) | Sent(request: T)

  /** The page: `currentHouseId` is the house whose tab is selected. */
  class Page {
    var currentHouseId: Option<int>

    /** The page loads with no house selected. */
    constructor ()
      ensures currentHouseId == None
    {
      currentHouseId := None;
    }

    /** `loadHouses` with the house ids in list order: no house clears the selection;
        otherwise an unset selection (none or 0) becomes the first house and a set one
        is kept, even when it is not in the list. */
    method LoadHouses(houses: seq<int>)
      modifies this
      ensures houses == [] ==> currentHouseId == None
      ensures houses != [] && (old(currentHouseId).None? || old(currentHouseId).value == 0) ==>
        currentHouseId == Some(houses[0])
      ensures houses != [] && old(currentHouseId).Some? && old(currentHouseId).value != 0 ==>
        currentHouseId == old(currentHouseId)
    {
      if |houses| == 0 {
        currentHouseId := None;
      } else if currentHouseId.None? || currentHouseId.value == 0 {
        currentHouseId := Some(houses[0]);
      }
    }

    /** A tab's click: selects its house and reloads the list, which keeps the
        selection unless the list came back empty. */
    method ClickTab(houseId: int, houses: seq<int>)
      modifies this
      ensures houses == [] ==> currentHouseId == None
      ensures houses != [] ==> currentHouseId == Some(if houseId != 0 then houseId else houses[0])
    {
      currentHouseId := Some(houseId);
      LoadHouses(houses);
    }

    /** `submitRoom`: no selected house, then a missing room number or a rent without
        a digit, stop with an alert; otherwise the room goes to the selected house
        with the rent's digits and the collected services. */
    method SubmitRoom(roomNumber: string, floor: string, area: string, rentRaw: string, facilities: string,
                      rows: seq<ServiceRow>) returns (r: Submission<RoomPayload>)
      ensures currentHouseId.None? || currentHouseId.value == 0 ==> r == Rejected("Lỗi: Chưa xác định được nhà trọ!")
      ensures r.Sent? <==> && currentHouseId.Some? && currentHouseId.value != 0
                           && roomNumber != "" && DigitsOnly(rentRaw) != ""
      ensures r.Rejected? && currentHouseId.Some? && currentHouseId.value != 0 ==>
        r.alert == "Vui lòng nhập số phòng và giá thuê!"
      ensures r.Sent? ==>
        && r.request == RoomPayload(currentHouseId.value, roomNumber, floor, area, DigitsOnly(rentRaw), facilities,
                                    KeptServices(rows))
        && Rooms.TruthyId(Some(r.request.houseId)) && AllDigits(r.request.rent)
    {
      if currentHouseId.None? || currentHouseId.value == 0 {
        return Rejected("Lỗi: Chưa xác định được nhà trọ!");
      }
      var rent := DigitsOnly(rentRaw);
      if roomNumber == "" || rent == "" {
        return Rejected("Vui lòng nhập số phòng và giá thuê!");
      }
      var services := CollectServices(rows);
      r := Sent(RoomPayload(currentHouseId.value, roomNumber, floor, area, rent, facilities, services));
    }
  }

  /** `submitHouse`: a missing name stops with an alert; otherwise the house is sent
      for landlord 1 with the collected services. */
  method SubmitHouse(name: string, address: string, description: string, rows: seq<ServiceRow>)
    returns (r: Submission<HousePayload>)
    ensures r.Rejected? <==> name == ""
    ensures r.Rejected? ==> r.alert == "Vui lòng nhập tên nhà trọ!"
    ensures r.Sent? ==> r.request == HousePayload(name, address, description, 1, KeptServices(rows))
  {
    if name == "" {
      return Rejected("Vui lòng nhập tên nhà trọ!");
    }
    var services := CollectServices(rows);
    r := Sent(HousePayload(name, address, description, 1, services));
  }
}
