/**
 * The `staff` slice of the web client's store: the staff list with three
 * denormalised counters kept in step by the reducers, and the
 * getDriverFines query over the fleet slice's vehicles.
 */
module StaffSlice {
  import Js
  import opened Outcome
  import opened Lists
  import opened ListCache
  import opened Text
  import FleetSlice

  predicate IsActive(m: Entry) { Js.Get(m.fields, "status") == Js.Str("Active") }
  predicate IsDriver(m: Entry) { Js.Get(m.fields, "role") == Js.Str("Driver") }

  /** The counters are the length and the two filter-counts of the list. */
  predicate CountersMatch(staff: seq<Entry>, totalStaff: int, activeStaff: int, drivers: int) {
    totalStaff == |staff| && activeStaff == Count(staff, IsActive) && drivers == Count(staff, IsDriver)
  }

  datatype StaffState = StaffState(
    staff: seq<Entry>,
    totalStaff: int,
    activeStaff: int,
    drivers: int,
    selectedStaffMember: Js.Value,
    driverFines: seq<Js.Object>,
    status: Js.Value,
    error: Js.Value)

  const InitialState := StaffState([], 0, 0, 0, Js.Null, [], Js.Str("idle"), Js.Null)

  /** The addStaffMember thunk's result `{id: now, ...staffData, status: 'Active'}`. */
  function NewStaffMember(data: Js.Object, now: nat): (m: Entry)
    ensures IsActive(m)
    ensures "id" in data ==> m.id == data["id"]
    ensures "id" !in data ==> m.id == Js.Num(now as real)
    ensures forall k :: k in data && k != "id" && k != "status" ==> k in m.fields && m.fields[k] == data[k]
  {
    Entry(if "id" in data then data["id"] else Js.Num(now as real), (data - {"id"})["status" := Js.Str("Active")])
  }

  /** `fine.driver.toLowerCase() === driverName.toLowerCase()`, for a fine whose driver is a string. */
  predicate DriverIs(fine: Js.Object, name: string) {
    Js.Get(fine, "driver").Str? && LowerAll(Js.Get(fine, "driver").s) == LowerAll(name)
  }

  /** `vehicle.trafficFines?.filter(...) || []` reads no fines from a vehicle without the property. */
  function FinesOf(v: FleetSlice.FleetVehicle): seq<Js.Object> {
    if v.trafficFines.Some? then v.trafficFines.value else []
  }

  /** `{...fine, vehicleNumber: vehicle.vehicleNumber}`. */
  function Tag(fine: Js.Object, v: FleetSlice.FleetVehicle): Js.Object {
    fine["vehicleNumber" := Js.Get(v.details, "vehicleNumber")]
  }

  /** The filter's test as a function value. */
  function DriverTest(name: string): Js.Object -> bool {
    fine => DriverIs(fine, name)
  }

  /** `fines.map(fine => ({...fine, vehicleNumber}))`: each fine tagged, in order. */
  function TagAll(fines: seq<Js.Object>, v: FleetSlice.FleetVehicle): (r: seq<Js.Object>)
    ensures |r| == |fines| && forall k :: 0 <= k < |fines| ==> r[k] == Tag(fines[k], v)
    decreases |fines|
  {
    if fines == [] then [] else [Tag(fines[0], v)] + TagAll(fines[1..], v)
  }

  /** One vehicle's contribution when no fine throws: its matching fines in order, tagged. */
  function VehicleMatches(v: FleetSlice.FleetVehicle, name: string): seq<Js.Object> {
    TagAll(Filter(FinesOf(v), DriverTest(name)), v)
  }

  /**
   * The reduce as written: the fines gathered from all vehicles but the
   * last, followed by the last vehicle's contribution.
   */
  function FleetFines(vehicles: seq<FleetSlice.FleetVehicle>, name: string): seq<Js.Object>
    decreases |vehicles|
  {
    if vehicles == [] then []
    else FleetFines(vehicles[..|vehicles| - 1], name) + VehicleMatches(vehicles[|vehicles| - 1], name)
  }

  lemma AppendAssociates(a: seq<Js.Object>, b: seq<Js.Object>, c: seq<Js.Object>)
    ensures (a + b) + c == a + (b + c)
  {
  }

  /** Folding from the left gives the first vehicle's matches ahead of the rest's. */
  lemma {:induction false} FleetFinesCons(vehicles: seq<FleetSlice.FleetVehicle>, name: string)
    requires vehicles != []
    ensures FleetFines(vehicles, name) == VehicleMatches(vehicles[0], name) + FleetFines(vehicles[1..], name)
    decreases |vehicles|
  {
    var n := |vehicles|;
    if n == 1 {
      assert vehicles[..0] == [] && vehicles[1..] == [];
    } else {
      var init, last := vehicles[..n - 1], vehicles[n - 1];
      FleetFinesCons(init, name);
      assert init[0] == vehicles[0];
      assert vehicles[1..][..n - 2] == init[1..];
      assert vehicles[1..][n - 2] == last;
      assert FleetFines(vehicles[1..], name) == FleetFines(init[1..], name) + VehicleMatches(last, name);
      AppendAssociates(VehicleMatches(vehicles[0], name), FleetFines(init[1..], name), VehicleMatches(last, name));
    }
  }

  /** A fine whose driver is not a string makes `toLowerCase` throw. */
  predicate Throws(fine: Js.Object) { !Js.Get(fine, "driver").Str? }

  /** One vehicle's matching fines, tagged; None when the filter throws. */
  function VehicleFines(v: FleetSlice.FleetVehicle, fines: seq<Js.Object>, name: string): (r: Option<seq<Js.Object>>)
    ensures r.None? <==> exists k :: 0 <= k < |fines| && Throws(fines[k])
    ensures r.Some? ==> forall t :: t in r.value <==> exists f :: f in fines && DriverIs(f, name) && t == Tag(f, v)
    ensures r.Some? ==> r.value == TagAll(Filter(fines, DriverTest(name)), v)
    decreases |fines|
  {
    if fines == [] then Some([])
    else if Throws(fines[0]) then None
    else
      var rest := VehicleFines(v, fines[1..], name);
      if rest.None? then
        assert exists k :: 0 <= k < |fines[1..]| && Throws(fines[1..][k]);
        None
      else if DriverIs(fines[0], name) then
        var kept := [fines[0]] + Filter(fines[1..], DriverTest(name));
        assert kept[0] == fines[0] && kept[1..] == Filter(fines[1..], DriverTest(name));
        Some([Tag(fines[0], v)] + rest.value)
      else
        assert [] + Filter(fines[1..], DriverTest(name)) == Filter(fines[1..], DriverTest(name));
        Some(rest.value)
  }

  /**
   * getDriverFines: the fleet's fines whose driver is the name, ignoring
   * case, each tagged with its vehicle's number, vehicle by vehicle; None
   * when some vehicle holds a fine whose driver is not a string.
   */
  function DriverFines(vehicles: seq<FleetSlice.FleetVehicle>, name: string): (r: Option<seq<Js.Object>>)
    ensures r.None? <==> exists i :: 0 <= i < |vehicles| && exists f :: f in FinesOf(vehicles[i]) && Throws(f)
    ensures r.Some? ==> forall t :: t in r.value <==>
      exists i :: 0 <= i < |vehicles| && exists f :: f in FinesOf(vehicles[i]) && DriverIs(f, name) && t == Tag(f, vehicles[i])
    ensures r.Some? ==> r.value == FleetFines(vehicles, name)
    decreases |vehicles|
  {
    if vehicles == [] then Some([])
    else
      var first := VehicleFines(vehicles[0], FinesOf(vehicles[0]), name);
      var rest := DriverFines(vehicles[1..], name);
      if first.None? || rest.None? then
        NoneFromPart(vehicles, name, first.None?);
        None
      else
        SomeFromParts(vehicles, name, first.value, rest.value);
        FleetFinesCons(vehicles, name);
        Some(first.value + rest.value)
  }

  /** A throwing fine in the first vehicle or the rest is a throwing fine of the fleet. */
  lemma NoneFromPart(vehicles: seq<FleetSlice.FleetVehicle>, name: string, firstThrows: bool)
    requires vehicles != []
    requires firstThrows ==> exists k :: 0 <= k < |FinesOf(vehicles[0])| && Throws(FinesOf(vehicles[0])[k])
    requires !firstThrows ==> exists i :: 0 <= i < |vehicles[1..]| && exists f :: f in FinesOf(vehicles[1..][i]) && Throws(f)
    ensures exists i :: 0 <= i < |vehicles| && exists f :: f in FinesOf(vehicles[i]) && Throws(f)
  {
    if firstThrows {
      var k :| 0 <= k < |FinesOf(vehicles[0])| && Throws(FinesOf(vehicles[0])[k]);
      assert FinesOf(vehicles[0])[k] in FinesOf(vehicles[0]);
    } else {
      var i :| 0 <= i < |vehicles[1..]| && exists f :: f in FinesOf(vehicles[1..][i]) && Throws(f);
      assert vehicles[1..][i] == vehicles[i + 1];
    }
  }

  /** The fleet's tagged matches are the first vehicle's followed by the rest's. */
  lemma SomeFromParts(vehicles: seq<FleetSlice.FleetVehicle>, name: string, first: seq<Js.Object>, rest: seq<Js.Object>)
    requires vehicles != []
    requires forall t :: t in first <==> exists f :: f in FinesOf(vehicles[0]) && DriverIs(f, name) && t == Tag(f, vehicles[0])
    requires forall t :: t in rest <==>
      exists i :: 0 <= i < |vehicles[1..]| && exists f :: f in FinesOf(vehicles[1..][i]) && DriverIs(f, name) && t == Tag(f, vehicles[1..][i])
    requires forall k :: 0 <= k < |FinesOf(vehicles[0])| ==> !Throws(FinesOf(vehicles[0])[k])
    requires !exists i :: 0 <= i < |vehicles[1..]| && exists f :: f in FinesOf(vehicles[1..][i]) && Throws(f)
    ensures forall t :: t in first + rest <==>
      exists i :: 0 <= i < |vehicles| && exists f :: f in FinesOf(vehicles[i]) && DriverIs(f, name) && t == Tag(f, vehicles[i])
    ensures !exists i :: 0 <= i < |vehicles| && exists f :: f in FinesOf(vehicles[i]) && Throws(f)
  {
    forall t | t in first + rest
      ensures exists i :: 0 <= i < |vehicles| && exists f :: f in FinesOf(vehicles[i]) && DriverIs(f, name) && t == Tag(f, vehicles[i])
    {
      if t !in first {
        var i :| 0 <= i < |vehicles[1..]| && exists f :: f in FinesOf(vehicles[1..][i]) && DriverIs(f, name) && t == Tag(f, vehicles[1..][i]);
        assert vehicles[1..][i] == vehicles[i + 1];
      }
    }
    forall t | exists i :: 0 <= i < |vehicles| && exists f :: f in FinesOf(vehicles[i]) && DriverIs(f, name) && t == Tag(f, vehicles[i])
      ensures t in first + rest
    {
      var i :| 0 <= i < |vehicles| && exists f :: f in FinesOf(vehicles[i]) && DriverIs(f, name) && t == Tag(f, vehicles[i]);
      if i > 0 {
        assert vehicles[1..][i - 1] == vehicles[i];
      }
    }
    forall i, f | 0 <= i < |vehicles| && f in FinesOf(vehicles[i])
      ensures !Throws(f)
    {
      if i > 0 {
        assert vehicles[1..][i - 1] == vehicles[i];
      }
    }
  }

  /** The list's ids are distinct and the counters match it. */
  predicate Consistent(staff: seq<Entry>, totalStaff: int, activeStaff: int, drivers: int) {
    IdsUnique(staff) && CountersMatch(staff, totalStaff, activeStaff, drivers)
  }

  /** Replacing the member at an index moves each counter by what left and what arrived, and keeps ids unique. */
  lemma UpdateKeepsCounters(staff: seq<Entry>, i: nat, updated: Entry, total: int, active: int, drivers: int)
    requires i < |staff| && staff[i].id == updated.id
    requires IdsUnique(staff) && CountersMatch(staff, total, active, drivers)
    ensures IdsUnique(staff[i := updated])
    ensures CountersMatch(staff[i := updated], total, Shift(active, IsActive(staff[i]), IsActive(updated)),
                          Shift(drivers, IsDriver(staff[i]), IsDriver(updated)))
  {
    CountUpdate(staff, i, updated, IsActive);
    CountUpdate(staff, i, updated, IsDriver);
    ReplaceSameKeyKeepsUnique(staff, EntryKey, updated.id, updated);
    FindIndexHitsFirst(staff, i, updated.id);
  }

  /** The same step for a list that may not be consistent: consistency before implies consistency after. */
  lemma UpdateStep(staff: seq<Entry>, i: nat, updated: Entry, total: int, active: int, drivers: int)
    requires i < |staff| && staff[i].id == updated.id
    ensures Consistent(staff, total, active, drivers) ==>
      Consistent(staff[i := updated], total, Shift(active, IsActive(staff[i]), IsActive(updated)),
                 Shift(drivers, IsDriver(staff[i]), IsDriver(updated)))
  {
    if Consistent(staff, total, active, drivers) {
      UpdateKeepsCounters(staff, i, updated, total, active, drivers);
    }
  }

  /** Among unique ids, an index holding the id is the one findIndex reports. */
  lemma FindIndexHitsFirst(staff: seq<Entry>, i: nat, id: Js.Value)
    requires i < |staff| && staff[i].id == id && IdsUnique(staff)
    ensures FindIndex(staff, EntryKey, id) == Some(i)
  {
    var r := FindIndex(staff, EntryKey, id);
    assert r.Some?;
  }

  /** Deleting a present id among unique ids takes one member and its counts away. */
  lemma DeleteKeepsCounters(staff: seq<Entry>, id: Js.Value, gone: Entry, total: int, active: int, drivers: int)
    requires Consistent(staff, total, active, drivers)
    requires FindFirst(staff, EntryKey, id) == Some(gone)
    ensures Consistent(RemoveAll(staff, EntryKey, id), total - 1, Shift(active, IsActive(gone), false),
                 Shift(drivers, IsDriver(gone), false))
  {
    FindFirstAtIndex(staff, EntryKey, id);
    DeleteCachedOnce(staff, id);
    CountRemoveUnique(staff, EntryKey, id, IsActive);
    CountRemoveUnique(staff, EntryKey, id, IsDriver);
  }

  /** The same step for a list that may not be consistent: consistency before implies consistency after. */
  lemma DeleteStep(staff: seq<Entry>, id: Js.Value, gone: Entry, total: int, active: int, drivers: int)
    requires FindFirst(staff, EntryKey, id) == Some(gone)
    ensures Consistent(staff, total, active, drivers) ==>
      Consistent(RemoveAll(staff, EntryKey, id), total - 1, Shift(active, IsActive(gone), false),
                 Shift(drivers, IsDriver(gone), false))
  {
    if Consistent(staff, total, active, drivers) {
      DeleteKeepsCounters(staff, id, gone, total, active, drivers);
    }
  }

  class Slice {
    var staff: seq<Entry>
    var totalStaff: int
    var activeStaff: int
    var drivers: int
    var selectedStaffMember: Js.Value
    var driverFines: seq<Js.Object>
    var status: Js.Value
    var error: Js.Value

    function State(): StaffState
      reads this
    {
      StaffState(staff, totalStaff, activeStaff, drivers, selectedStaffMember, driverFines, status, error)
    }

    /** Ids are distinct and the counters match the list. */
    ghost predicate Valid()
      reads this
    {
      Consistent(staff, totalStaff, activeStaff, drivers)
    }

    constructor ()
      ensures State() == InitialState && Valid()
    {
      staff := [];
      totalStaff := 0;
      activeStaff := 0;
      drivers := 0;
      selectedStaffMember := Js.Null;
      driverFines := [];
      status := Js.Str("idle");
      error := Js.Null;
    }

    /** setStaff: the list and its three counts. */
    method SetStaff(list: seq<Entry>)
      modifies this
      ensures State() == old(State()).(staff := list, totalStaff := |list|,
                                       activeStaff := Count(list, IsActive), drivers := Count(list, IsDriver))
      ensures CountersMatch(staff, totalStaff, activeStaff, drivers)
    {
      staff := list;
      totalStaff := |list|;
      activeStaff := Count(list, IsActive);
      drivers := Count(list, IsDriver);
    }

    /**
     * updateStaffMember: the first member with the payload's id is replaced,
     * and each counter moves by what leaves and what arrives; an unknown id
     * changes nothing.
     */
    method UpdateStaffMember(updated: Entry)
      modifies this
      ensures var i := FindIndex(old(staff), EntryKey, updated.id);
        (i.None? ==> State() == old(State())) &&
        (i.Some? ==> State() == old(State()).(
            staff := old(staff)[i.value := updated],
            activeStaff := Shift(old(activeStaff), IsActive(old(staff)[i.value]), IsActive(updated)),
            drivers := Shift(old(drivers), IsDriver(old(staff)[i.value]), IsDriver(updated))))
      ensures old(Valid()) ==> Valid()
    {
      var index := FindIndex(staff, EntryKey, updated.id);
      if index.Some? {
        var i := index.value;
        var before := staff[i];
        var active := AdjustCount(activeStaff, Js.Get(before.fields, "status") != Js.Get(updated.fields, "status"),
                                  IsActive(before), IsActive(updated));
        var driving := AdjustCount(drivers, Js.Get(before.fields, "role") != Js.Get(updated.fields, "role"),
                                   IsDriver(before), IsDriver(updated));
        UpdateStep(staff, i, updated, totalStaff, activeStaff, drivers);
        activeStaff := active;
        drivers := driving;
        staff := staff[i := updated];
      }
    }

    /**
     * deleteStaffMember: the counters drop once for the first member with
     * the id, while every member with the id leaves the list.
     */
    method DeleteStaffMember(id: Js.Value)
      modifies this
      ensures selectedStaffMember == old(selectedStaffMember) && driverFines == old(driverFines)
      ensures status == old(status) && error == old(error)
      ensures var found := FindFirst(old(staff), EntryKey, id);
        (found.None? ==> staff == old(staff) && totalStaff == old(totalStaff) &&
                         activeStaff == old(activeStaff) && drivers == old(drivers)) &&
        (found.Some? ==> staff == RemoveAll(old(staff), EntryKey, id) && totalStaff == old(totalStaff) - 1 &&
                         activeStaff == Shift(old(activeStaff), IsActive(found.value), false) &&
                         drivers == Shift(old(drivers), IsDriver(found.value), false))
      ensures old(Valid()) ==> Valid()
    {
      var found := FindFirst(staff, EntryKey, id);
      if found.Some? {
        var gone := found.value;
        // each counter the member falls under drops by one
        DeleteStep(staff, id, gone, totalStaff, activeStaff, drivers);
        activeStaff := Shift(activeStaff, IsActive(gone), false);
        drivers := Shift(drivers, IsDriver(gone), false);
        staff := RemoveAll(staff, EntryKey, id);
        totalStaff := totalStaff - 1;
      }
    }

    method SetSelectedStaffMember(member: Js.Value)
      modifies this
      ensures State() == old(State()).(selectedStaffMember := member)
    {
      selectedStaffMember := member;
    }

    method SetStatus(newStatus: Js.Value)
      modifies this
      ensures State() == old(State()).(status := newStatus)
    {
      status := newStatus;
    }

    /** setError: the error, and the status forced to 'failed'. */
    method SetError(e: Js.Value)
      modifies this
      ensures State() == old(State()).(error := e, status := Js.Str("failed"))
    {
      error := e;
      status := Js.Str("failed");
    }

    /** The pending case of getDriverFines and addStaffMember. */
    method Pending()
      modifies this
      ensures State() == old(State()).(status := Js.Str("loading"))
    {
      status := Js.Str("loading");
    }

    /** The rejected case of getDriverFines and addStaffMember: `action.error.message`. */
    method Rejected(message: Js.Value)
      modifies this
      ensures State() == old(State()).(status := Js.Str("failed"), error := message)
    {
      status := Js.Str("failed");
      error := message;
    }

    method DriverFinesFulfilled(fines: seq<Js.Object>)
      modifies this
      ensures State() == old(State()).(status := Js.Str("idle"), driverFines := fines)
    {
      status := Js.Str("idle");
      driverFines := fines;
    }

    /** addStaffMember fulfilled: one member more at the end, and the counters it falls under go up by one. */
    method AddStaffMemberFulfilled(member: Entry)
      modifies this
      ensures State() == old(State()).(status := Js.Str("idle"), staff := old(staff) + [member],
                                       totalStaff := old(totalStaff) + 1,
                                       activeStaff := old(activeStaff) + (if IsActive(member) then 1 else 0),
                                       drivers := old(drivers) + (if IsDriver(member) then 1 else 0))
      ensures old(Valid()) && FindIndex(old(staff), EntryKey, member.id).None? ==> Valid()
    {
      CountAppend(staff, [member], IsActive);
      CountAppend(staff, [member], IsDriver);
      if IdsUnique(staff) {
        CacheWritesKeepIdsUnique(staff, member);
      }
      status := Js.Str("idle");
      staff := staff + [member];
      totalStaff := totalStaff + 1;
      activeStaff := Shift(activeStaff, false, IsActive(member));
      drivers := Shift(drivers, false, IsDriver(member));
    }
  }

  /**
   * With a repeated id the delete reducer drops every member with it from
   * the list but one from `totalStaff`: the counters `DeleteStaffMember`
   * leaves no longer match the list.
   */
  lemma RepeatedIdBreaksCounters(staff: seq<Entry>, id: Js.Value, gone: Entry, total: int, active: int, drivers: int)
    requires CountersMatch(staff, total, active, drivers)
    requires FindFirst(staff, EntryKey, id) == Some(gone) && Occurrences(staff, EntryKey, id) >= 2
    ensures !CountersMatch(RemoveAll(staff, EntryKey, id), total - 1, Shift(active, IsActive(gone), false),
                           Shift(drivers, IsDriver(gone), false))
  {
  }
}
