/**
 * The `fleet` slice of the web client's store: fleet vehicles with their
 * maintenance records and traffic fines, and the payloads its simulated
 * thunks build. The thunks' clock and random number are parameters.
 */
module FleetSlice {
  import Js
  import opened Outcome
  import opened Lists
  import opened Text

  /**
   * A fleet vehicle: its `id` and `status`, its maintenance records, its
   * traffic fines (a vehicle may have no `trafficFines` property), and its
   * other properties.
   */
  datatype FleetVehicle = FleetVehicle(
    id: Js.Value,
    status: Js.Value,
    maintenanceHistory: seq<Js.Object>,
    trafficFines: Option<seq<Js.Object>>,
    details: Js.Object)

  function VehicleKey(v: FleetVehicle): Js.Value { v.id }

  /** The properties the vehicle datatype holds apart from `details`. */
  const Structural: set<string> := {"id", "status", "maintenanceHistory", "trafficFines"}

  /** The fine every mock vehicle starts with. */
  const MockFine: Js.Object := map[
    "id" := Js.Str("TF001"), "date" := Js.Str("2024-01-15"), "location" := Js.Str("Main Road, Johannesburg"),
    "offence" := Js.Str("Speeding"), "amount" := Js.Num(1500.0), "status" := Js.Str("unpaid"),
    "dueDate" := Js.Str("2024-03-15"), "driver" := Js.Str("John Doe")]

  /** The one vehicle of the initial state. */
  const MockVehicle := FleetVehicle(Js.Num(1.0), Js.Str("Active"), [], Some([MockFine]),
    map["vehicleNumber" := Js.Str("V001"), "type" := Js.Str("Truck"), "model" := Js.Str("Toyota Hino")])

  datatype FleetState = FleetState(
    vehicles: seq<FleetVehicle>,
    selectedVehicle: Js.Value,
    status: string,
    error: Js.Value)

  const InitialState := FleetState([MockVehicle], Js.Null, "idle", Js.Null)

  /**
   * The addVehicle thunk's result `{id: now, ...vehicleData, maintenanceHistory: [], trafficFines: []}`:
   * a supplied id wins over the clock, supplied lists never do.
   */
  function NewVehicle(data: Js.Object, now: nat): (v: FleetVehicle)
    ensures v.maintenanceHistory == [] && v.trafficFines == Some([])
    ensures "id" in data ==> v.id == data["id"]
    ensures "id" !in data ==> v.id == Js.Num(now as real)
    ensures v.status == Js.Get(data, "status")
    ensures forall k :: k in data && k !in Structural ==> k in v.details && v.details[k] == data[k]
    ensures forall k :: k in v.details ==> k in data && k !in Structural
  {
    FleetVehicle(if "id" in data then data["id"] else Js.Num(now as real), Js.Get(data, "status"), [], Some([]), data - Structural)
  }

  /**
   * The scheduleMaintenance thunk's record: the supplied details, then an
   * id "m" + a number below 1000, today's date and status 'Scheduled', which
   * override the details.
   */
  function ScheduledRecord(details: Js.Object, random: nat, today: string): (m: Js.Object)
    requires random < 1000
    ensures m.Keys == details.Keys + {"id", "date", "status"}
    ensures m["status"] == Js.Str("Scheduled") && m["date"] == Js.Str(today)
    ensures m["id"].Str? && 2 <= |m["id"].s| <= 4 && m["id"].s[0] == 'm'
    ensures forall k :: k in details && k !in {"id", "date", "status"} ==> m[k] == details[k]
  {
    SmallNumbersAreShort(random);
    details["id" := Js.Str("m" + NatToString(random))]["date" := Js.Str(today)]["status" := Js.Str("Scheduled")]
  }

  lemma SmallNumbersAreShort(n: nat)
    requires n < 1000
    ensures |NatToString(n)| <= 3
  {
    if n >= 10 {
      SmallNumbersAreShort(n / 10);
    }
  }

  /**
   * The addTrafficFine thunk's fine `{id: 'TF' + now, ...fineData, status: 'unpaid'}`:
   * a supplied id wins, a supplied status never does.
   */
  function NewFine(fineData: Js.Object, now: nat): (fine: Js.Object)
    ensures fine.Keys == fineData.Keys + {"id", "status"}
    ensures fine["status"] == Js.Str("unpaid")
    ensures "id" in fineData ==> fine["id"] == fineData["id"]
    ensures "id" !in fineData ==> fine["id"] == Js.Str("TF" + NatToString(now))
    ensures forall k :: k in fineData && k != "status" ==> fine[k] == fineData[k]
  {
    (map["id" := Js.Str("TF" + NatToString(now))] + fineData)["status" := Js.Str("unpaid")]
  }

  class Slice {
    var vehicles: seq<FleetVehicle>
    var selectedVehicle: Js.Value
    var status: string
    var error: Js.Value

    function State(): FleetState
      reads this
    {
      FleetState(vehicles, selectedVehicle, status, error)
    }

    constructor ()
      ensures State() == InitialState
    {
      vehicles := [MockVehicle];
      selectedVehicle := Js.Null;
      status := "idle";
      error := Js.Null;
    }

    method SetSelectedVehicle(vehicle: Js.Value)
      modifies this
      ensures State() == old(State()).(selectedVehicle := vehicle)
    {
      selectedVehicle := vehicle;
    }

    /** The pending case of fetchFleetVehicles, addVehicle and addTrafficFine. */
    method Pending()
      modifies this
      ensures State() == old(State()).(status := "loading")
    {
      status := "loading";
    }

    /** The rejected case of the same three thunks: `action.error.message`. */
    method Rejected(message: Js.Value)
      modifies this
      ensures State() == old(State()).(status := "failed", error := message)
    {
      status := "failed";
      error := message;
    }

    method FetchFulfilled(list: seq<FleetVehicle>)
      modifies this
      ensures State() == old(State()).(status := "succeeded", vehicles := list)
    {
      status := "succeeded";
      vehicles := list;
    }

    /** addVehicle fulfilled: one vehicle more, at the end. */
    method AddVehicleFulfilled(vehicle: FleetVehicle)
      modifies this
      ensures State() == old(State()).(status := "idle", vehicles := old(vehicles) + [vehicle])
    {
      status := "idle";
      vehicles := vehicles + [vehicle];
    }

    /** updateVehicleStatus fulfilled: the status of the first vehicle with the id, and nothing else. */
    method UpdateStatusFulfilled(id: Js.Value, newStatus: Js.Value)
      modifies this
      ensures selectedVehicle == old(selectedVehicle) && status == old(status) && error == old(error)
      ensures var i := FindIndex(old(vehicles), VehicleKey, id);
        (i.None? ==> vehicles == old(vehicles)) &&
        (i.Some? ==> vehicles == old(vehicles)[i.value := old(vehicles)[i.value].(status := newStatus)])
    {
      var i := FindIndex(vehicles, VehicleKey, id);
      if i.Some? {
        vehicles := vehicles[i.value := vehicles[i.value].(status := newStatus)];
      }
    }

    /** scheduleMaintenance fulfilled: one record more on the first vehicle with the id. */
    method ScheduleMaintenanceFulfilled(vehicleId: Js.Value, record: Js.Object)
      modifies this
      ensures selectedVehicle == old(selectedVehicle) && status == old(status) && error == old(error)
      ensures var i := FindIndex(old(vehicles), VehicleKey, vehicleId);
        (i.None? ==> vehicles == old(vehicles)) &&
        (i.Some? ==> (var v := old(vehicles)[i.value];
                      vehicles == old(vehicles)[i.value := v.(maintenanceHistory := v.maintenanceHistory + [record])]))
    {
      var i := FindIndex(vehicles, VehicleKey, vehicleId);
      if i.Some? {
        var v := vehicles[i.value];
        vehicles := vehicles[i.value := v.(maintenanceHistory := v.maintenanceHistory + [record])];
      }
    }

    /** addTrafficFine fulfilled: the fine list is created when missing, then gets one fine more. */
    method AddTrafficFineFulfilled(vehicleId: Js.Value, fine: Js.Object)
      modifies this
      ensures selectedVehicle == old(selectedVehicle) && status == "idle" && error == old(error)
      ensures var i := FindIndex(old(vehicles), VehicleKey, vehicleId);
        (i.None? ==> vehicles == old(vehicles)) &&
        (i.Some? ==> (var v := old(vehicles)[i.value];
                      var before := if v.trafficFines.Some? then v.trafficFines.value else [];
                      vehicles == old(vehicles)[i.value := v.(trafficFines := Some(before + [fine]))]))
    {
      status := "idle";
      var i := FindIndex(vehicles, VehicleKey, vehicleId);
      if i.Some? {
        var v := vehicles[i.value];
        if v.trafficFines.None? {
          v := v.(trafficFines := Some([]));
        }
        vehicles := vehicles[i.value := v.(trafficFines := Some(v.trafficFines.value + [fine]))];
      }
    }
  }
}
