/**
 * The `vehicles` slice of the web client's store: the cached vehicles keyed
 * by `_id`, the selected vehicle kept in step with the cache, and the
 * request flags with a per-thunk fallback error message.
 */
module VehicleSlice {
  import opened Outcome
  import Js
  import opened Lists
  import opened ListCache

  datatype VehicleState = VehicleState(
    vehicles: seq<Entry>,
    selectedVehicle: Option<Entry>,
    loading: bool,
    error: Js.Value,
    success: bool)

  const InitialState := VehicleState([], None, false, Js.Null, false)

  /**
   * The rejected cases' `action.payload?.message || fallback`: the message
   * of an object payload when it is truthy, the thunk's fallback otherwise.
   */
  function RejectionMessage(payload: Js.Value, fallback: string): (error: Js.Value)
    ensures payload.Obj? && Js.Truthy(Js.Get(payload.fields, "message")) ==> error == Js.Get(payload.fields, "message")
    ensures !(payload.Obj? && Js.Truthy(Js.Get(payload.fields, "message"))) ==> error == Js.Str(fallback)
    ensures fallback != "" ==> Js.Truthy(error)
  {
    var message := if payload.Obj? then Js.Get(payload.fields, "message") else Js.Undefined;
    if Js.Truthy(message) then message else Js.Str(fallback)
  }

  /** `state.selectedVehicle?._id`: `undefined` when nothing is selected. */
  function SelectedId(selected: Option<Entry>): Js.Value {
    if selected.Some? then selected.value.id else Js.Undefined
  }

  /**
   * `if (state.selectedVehicle?._id === vehicle._id) state.selectedVehicle = vehicle`:
   * with nothing selected, a returned vehicle without an `_id` compares
   * `undefined === undefined` and becomes the selection.
   */
  function Synced(selected: Option<Entry>, vehicle: Entry): (r: Option<Entry>)
    ensures selected.Some? && selected.value.id == vehicle.id ==> r == Some(vehicle)
    ensures selected.None? && vehicle.id == Js.Undefined ==> r == Some(vehicle)
    ensures selected.Some? && selected.value.id != vehicle.id ==> r == selected
    ensures selected.None? && vehicle.id != Js.Undefined ==> r.None?
  {
    if SelectedId(selected) == vehicle.id then Some(vehicle) else selected
  }

  /** `if (state.selectedVehicle?._id === id) state.selectedVehicle = null`. */
  function Dropped(selected: Option<Entry>, id: Js.Value): (r: Option<Entry>)
    ensures selected.Some? && selected.value.id == id ==> r.None?
    ensures !(selected.Some? && selected.value.id == id) ==> r == selected
    ensures r.Some? ==> r.value.id != id
  {
    if SelectedId(selected) == id then None else selected
  }

  /** The selected vehicle, when the cache holds its id, is the cached copy. */
  predicate SelectedAgrees(vehicles: seq<Entry>, selected: Option<Entry>) {
    selected.Some? && FindFirst(vehicles, EntryKey, selected.value.id).Some? ==>
      FindFirst(vehicles, EntryKey, selected.value.id).value == selected.value
  }

  /** Replace-by-id with selected-vehicle sync keeps the selection in step with the cache. */
  lemma ReplaceKeepsSelectedInStep(vehicles: seq<Entry>, selected: Option<Entry>, vehicle: Entry)
    requires SelectedAgrees(vehicles, selected)
    ensures SelectedAgrees(ReplaceFirst(vehicles, EntryKey, vehicle.id, vehicle), Synced(selected, vehicle))
  {
    var s := Synced(selected, vehicle);
    if s.Some? {
      FindFirstAfterReplace(vehicles, EntryKey, vehicle.id, vehicle, s.value.id);
    }
  }

  /** Delete with selected-vehicle drop keeps the selection in step with the cache. */
  lemma DeleteKeepsSelectedInStep(vehicles: seq<Entry>, selected: Option<Entry>, id: Js.Value)
    requires SelectedAgrees(vehicles, selected)
    ensures SelectedAgrees(RemoveAll(vehicles, EntryKey, id), Dropped(selected, id))
  {
    var s := Dropped(selected, id);
    if s.Some? {
      FindFirstAfterRemove(vehicles, EntryKey, id, s.value.id);
    }
  }

  class Slice {
    var vehicles: seq<Entry>
    var selectedVehicle: Option<Entry>
    var loading: bool
    var error: Js.Value
    var success: bool

    function State(): VehicleState
      reads this
    {
      VehicleState(vehicles, selectedVehicle, loading, error, success)
    }

    ghost predicate InStep()
      reads this
    {
      SelectedAgrees(vehicles, selectedVehicle)
    }

    constructor ()
      ensures State() == InitialState && InStep()
    {
      vehicles := [];
      selectedVehicle := None;
      loading := false;
      error := Js.Null;
      success := false;
    }

    method ClearError()
      modifies this
      ensures State() == old(State()).(error := Js.Null)
    {
      error := Js.Null;
    }

    method ClearSuccess()
      modifies this
      ensures State() == old(State()).(success := false)
    {
      success := false;
    }

    method SetSelectedVehicle(vehicle: Option<Entry>)
      modifies this
      ensures State() == old(State()).(selectedVehicle := vehicle)
    {
      selectedVehicle := vehicle;
    }

    /** The pending case of fetchVehicles and fetchVehicle. */
    method FetchPending()
      modifies this
      ensures State() == old(State()).(loading := true, error := Js.Null)
    {
      loading := true;
      error := Js.Null;
    }

    /** The pending case of the thunks that write (create, update, delete, addIncident, uploadDocument). */
    method WritePending()
      modifies this
      ensures State() == old(State()).(loading := true, error := Js.Null, success := false)
    {
      loading := true;
      error := Js.Null;
      success := false;
    }

    /** Every rejected case, with that thunk's fallback message. */
    method Rejected(payload: Js.Value, fallback: string)
      modifies this
      ensures State() == old(State()).(loading := false, error := RejectionMessage(payload, fallback))
    {
      loading := false;
      error := RejectionMessage(payload, fallback);
    }

    /** fetchVehicles fulfilled: the list is the server's. */
    method FetchAllFulfilled(list: seq<Entry>)
      modifies this
      ensures State() == old(State()).(loading := false, vehicles := list)
    {
      loading := false;
      vehicles := list;
    }

    /** fetchVehicle fulfilled: the fetched vehicle becomes the selected one. */
    method FetchOneFulfilled(vehicle: Entry)
      modifies this
      ensures State() == old(State()).(loading := false, selectedVehicle := Some(vehicle))
    {
      loading := false;
      selectedVehicle := Some(vehicle);
    }

    /** createVehicle fulfilled: the new vehicle goes last. */
    method CreateFulfilled(created: Entry)
      modifies this
      ensures State() == old(State()).(loading := false, vehicles := old(vehicles) + [created], success := true)
    {
      loading := false;
      vehicles := vehicles + [created];
      success := true;
    }

    /**
     * updateVehicle, addIncident and uploadDocument fulfilled: the returned
     * vehicle replaces the cached one with its `_id` and the selected one
     * when that has the same `_id` (or, with nothing selected, when the
     * returned vehicle has no `_id`).
     */
    method ReplaceFulfilled(vehicle: Entry)
      modifies this
      ensures State() == old(State()).(loading := false,
                                       vehicles := ReplaceFirst(old(vehicles), EntryKey, vehicle.id, vehicle),
                                       selectedVehicle := Synced(old(selectedVehicle), vehicle),
                                       success := true)
      ensures old(InStep()) ==> InStep()
    {
      if InStep() {
        ReplaceKeepsSelectedInStep(vehicles, selectedVehicle, vehicle);
      }
      loading := false;
      var index := FindIndex(vehicles, EntryKey, vehicle.id);
      if index.Some? {
        vehicles := vehicles[index.value := vehicle];
      }
      if SelectedId(selectedVehicle) == vehicle.id {
        selectedVehicle := Some(vehicle);
      }
      success := true;
    }

    /** deleteVehicle fulfilled: every cached vehicle with the `_id` goes, and so does the selection if it had it. */
    method DeleteFulfilled(id: Js.Value)
      modifies this
      ensures State() == old(State()).(loading := false,
                                       vehicles := RemoveAll(old(vehicles), EntryKey, id),
                                       selectedVehicle := Dropped(old(selectedVehicle), id),
                                       success := true)
      ensures old(InStep()) ==> InStep()
    {
      if InStep() {
        DeleteKeepsSelectedInStep(vehicles, selectedVehicle, id);
      }
      loading := false;
      vehicles := RemoveAll(vehicles, EntryKey, id);
      if SelectedId(selectedVehicle) == id {
        selectedVehicle := None;
      }
      success := true;
    }
  }
}
