/**
 * The vehicle controller of the MongoDB backend: registration-number
 * uniqueness on create and update, the embedded incident, document and
 * maintenance lists, the routine-service rule and the statistics. The
 * collection is a map from id to vehicle; embedded records draw their ids
 * from the same counter.
 */
module VehicleController {
  import opened Outcome
  import opened Calendar
  import Js
  import opened Lists
  import opened VehicleModel

  const VehicleNotFound := HttpError(404, "Vehicle not found")
  const IncidentNotFound := HttpError(404, "Incident not found")
  const DocumentNotFound := HttpError(404, "Document not found")
  const RegistrationTaken := HttpError(400, "Registration number already exists")
  /** A write the collection refuses (required field, unique index); passed on to the error middleware. */
  const WriteRefused := HttpError(500, "Server error")

  /** Some vehicle other than `except` has registration number `reg`. */
  predicate RegistrationInUse(vs: map<Id, Vehicle>, reg: string, except: Option<Id>) {
    exists id :: id in vs && vs[id].registrationNumber == reg && except != Some(id)
  }

  predicate RegistrationsUnique(vs: map<Id, Vehicle>) {
    forall i, j :: i in vs && j in vs && i != j ==> vs[i].registrationNumber != vs[j].registrationNumber
  }

  /** Embedded ids are below the counter and unique within each list. */
  predicate EmbeddedIdsFresh(v: Vehicle, bound: Id) {
    (forall d :: d in v.documents ==> d.id < bound) &&
    (forall i :: i in v.incidents ==> i.id < bound) &&
    (forall m :: m in v.maintenanceHistory ==> m.id < bound) &&
    UniqueKeys(v.documents, DocumentKey) && UniqueKeys(v.incidents, IncidentKey)
  }

  /** The store invariant: ids below the counter, fresh embedded ids, unique registration numbers. */
  predicate StoreValid(vs: map<Id, Vehicle>, bound: Id) {
    (forall id :: id in vs ==> id < bound && EmbeddedIdsFresh(vs[id], bound)) &&
    RegistrationsUnique(vs)
  }

  /** Replacing one vehicle by another with the same registration number and fresh embedded ids keeps the invariant. */
  lemma ReplaceKeepsStoreValid(vs: map<Id, Vehicle>, bound: Id, id: Id, w: Vehicle)
    requires StoreValid(vs, bound) && id in vs
    requires w.registrationNumber == vs[id].registrationNumber && EmbeddedIdsFresh(w, bound)
    ensures StoreValid(vs[id := w], bound)
  {
  }

  /** The fields of a create request; embedded lists start empty. */
  datatype NewVehicle = NewVehicle(
    registrationNumber: string,
    status: Option<VehicleStatus>,
    fuelType: FuelType,
    mileage: real,
    lastService: Date,
    nextServiceDue: Date,
    insuranceExpiry: Date)

  function Created(n: NewVehicle): (v: Vehicle)
    ensures v.status == (if n.status.Some? then n.status.value else DefaultVehicleStatus)
    ensures v.documents == [] && v.incidents == [] && v.maintenanceHistory == []
  {
    Vehicle(n.registrationNumber, if n.status.Some? then n.status.value else DefaultVehicleStatus, n.fuelType,
            n.mileage, n.lastService, n.nextServiceDue, n.insuranceExpiry, [], [], [])
  }

  /** The `$set` of an update: each field present in the body is written. */
  datatype VehiclePatch = VehiclePatch(
    registrationNumber: Option<string>,
    status: Option<VehicleStatus>,
    fuelType: Option<FuelType>,
    mileage: Option<real>,
    lastService: Option<Date>,
    nextServiceDue: Option<Date>,
    insuranceExpiry: Option<Date>)

  const EmptyVehiclePatch := VehiclePatch(None, None, None, None, None, None, None)

  function Pick<T>(o: Option<T>, fallback: T): T {
    if o.Some? then o.value else fallback
  }

  function ApplyVehiclePatch(v: Vehicle, p: VehiclePatch): (r: Vehicle)
    ensures p.registrationNumber.None? ==> r.registrationNumber == v.registrationNumber
    ensures p.registrationNumber.Some? ==> r.registrationNumber == p.registrationNumber.value
    ensures p.status.None? ==> r.status == v.status
    ensures p.status.Some? ==> r.status == p.status.value
    ensures p.fuelType.None? ==> r.fuelType == v.fuelType
    ensures p.fuelType.Some? ==> r.fuelType == p.fuelType.value
    ensures p.mileage.None? ==> r.mileage == v.mileage
    ensures p.mileage.Some? ==> r.mileage == p.mileage.value
    ensures p.lastService.None? ==> r.lastService == v.lastService
    ensures p.lastService.Some? ==> r.lastService == p.lastService.value
    ensures p.nextServiceDue.None? ==> r.nextServiceDue == v.nextServiceDue
    ensures p.nextServiceDue.Some? ==> r.nextServiceDue == p.nextServiceDue.value
    ensures p.insuranceExpiry.None? ==> r.insuranceExpiry == v.insuranceExpiry
    ensures p.insuranceExpiry.Some? ==> r.insuranceExpiry == p.insuranceExpiry.value
    ensures p == EmptyVehiclePatch ==> r == v
    ensures r.documents == v.documents && r.incidents == v.incidents && r.maintenanceHistory == v.maintenanceHistory
  {
    v.(registrationNumber := Pick(p.registrationNumber, v.registrationNumber),
       status := Pick(p.status, v.status),
       fuelType := Pick(p.fuelType, v.fuelType),
       mileage := Pick(p.mileage, v.mileage),
       lastService := Pick(p.lastService, v.lastService),
       nextServiceDue := Pick(p.nextServiceDue, v.nextServiceDue),
       insuranceExpiry := Pick(p.insuranceExpiry, v.insuranceExpiry))
  }

  /** The JSON value the handlers write for the signed-in user's id. */
  function ActorValue(actor: Id): Js.Value {
    Js.Num(actor as real)
  }

  /** `{...body, reportedBy}` as the incident schema casts it: a missing status is 'open'. */
  function NewIncidentFields(body: Js.Object, actor: Id): (f: Js.Object)
    ensures Js.Get(f, "reportedBy") == ActorValue(actor)
    ensures Js.Get(body, "status").Undefined? ==> Js.Get(f, "status") == Js.Str("open")
    ensures !Js.Get(body, "status").Undefined? ==> Js.Get(f, "status") == Js.Get(body, "status")
    ensures forall k :: k in body && k != "reportedBy" && k != "status" ==> k in f && f[k] == body[k]
  {
    var spread := body["reportedBy" := ActorValue(actor)];
    if Js.Get(body, "status").Undefined? then spread["status" := Js.Str("open")] else spread
  }

  /** An incident counts as open when its status is 'open'. */
  predicate IsOpen(i: Incident) {
    Js.Get(i.fields, "status") == Js.Str("open")
  }

  /** A document counts as expiring when it has an expiry date no later than thirty days from now. */
  predicate ExpiringBy(d: Document, now: int) {
    d.expiryDate.Some? && Millis(d.expiryDate.value) <= now + 30 * DayMs
  }

  /** The test `d => d.expiryDate && new Date(d.expiryDate) <= thirtyDaysFromNow` as a function value. */
  function ExpiringAt(now: int): Document -> bool {
    d => ExpiringBy(d, now)
  }

  datatype VehicleStats = VehicleStats(
    totalIncidents: nat,
    openIncidents: nat,
    totalMaintenanceCost: real,
    daysUntilService: int,
    insuranceStatus: InsuranceState,
    documentsCount: nat,
    expiringDocuments: nat)

  /** The statistics object of GET /:id/stats. */
  function Stats(v: Vehicle, now: int): (s: VehicleStats)
    ensures s.totalIncidents == |v.incidents| && s.documentsCount == |v.documents|
    ensures s.openIncidents == |Filter(v.incidents, IsOpen)| <= s.totalIncidents
    ensures s.expiringDocuments == |Filter(v.documents, ExpiringAt(now))| <= s.documentsCount
    ensures s.totalMaintenanceCost == SumCosts(v.maintenanceHistory)
    ensures var diff := Millis(v.nextServiceDue) - now;
      (s.daysUntilService - 1) * DayMs < diff <= s.daysUntilService * DayMs
    ensures s.insuranceStatus == Valid <==> Millis(v.insuranceExpiry) > now
  {
    UnboundedTotalIsSum(v.maintenanceHistory);
    VehicleStats(|v.incidents|, Count(v.incidents, IsOpen), TotalMaintenanceCost(v.maintenanceHistory, None, None),
                 DaysUntilService(v, now), InsuranceStatus(v, now), |v.documents|, Count(v.documents, ExpiringAt(now)))
  }

  /** A document already past its expiry date is still counted as expiring. */
  lemma {:induction false} ExpiredDocumentsCount(docs: seq<Document>, now: int)
    requires forall k :: 0 <= k < |docs| ==> docs[k].expiryDate.Some? && Millis(docs[k].expiryDate.value) <= now
    ensures Count(docs, ExpiringAt(now)) == |docs|
    decreases |docs|
  {
    if docs != [] {
      ExpiredDocumentsCount(docs[1..], now);
    }
  }

  /** An incident reported without a status is counted as open. */
  lemma ReportedIncidentIsOpen(id: Id, body: Js.Object, actor: Id)
    requires Js.Get(body, "status").Undefined?
    ensures IsOpen(Incident(id, NewIncidentFields(body, actor)))
  {
  }

  /** Adding an incident raises the open count by one exactly when the new incident is open. */
  lemma OpenCountAfterAdd(incs: seq<Incident>, i: Incident)
    ensures Count(incs + [i], IsOpen) == Count(incs, IsOpen) + (if IsOpen(i) then 1 else 0)
  {
    CountAppend(incs, [i], IsOpen);
    assert [i][1..] == [];
  }

  class VehicleStore {
    var vehicles: map<Id, Vehicle>
    var nextId: Id

    ghost predicate Valid()
      reads this
    {
      StoreValid(vehicles, nextId)
    }

    constructor ()
      ensures Valid() && vehicles == map[]
    {
      vehicles := map[];
      nextId := 0;
    }

    /**
     * POST /: an existing registration number is a 400; an empty one fails
     * the schema's required check; otherwise the vehicle is stored.
     */
    method CreateVehicle(n: NewVehicle) returns (r: Result<Id>)
      requires Valid()
      modifies this
      ensures Valid()
      ensures RegistrationInUse(old(vehicles), n.registrationNumber, None) ==> r == Err(RegistrationTaken)
      ensures r.Ok? <==> !RegistrationInUse(old(vehicles), n.registrationNumber, None) && n.registrationNumber != ""
      ensures r.Err? ==> vehicles == old(vehicles)
      ensures r.Ok? ==> r.value !in old(vehicles) && vehicles == old(vehicles)[r.value := Created(n)]
    {
      if RegistrationInUse(vehicles, n.registrationNumber, None) {
        return Err(RegistrationTaken);
      }
      if n.registrationNumber == "" {
        return Err(WriteRefused);
      }
      var id := nextId;
      vehicles := vehicles[id := Created(n)];
      nextId := nextId + 1;
      r := Ok(id);
    }

    /**
     * PUT /:id: the uniqueness check runs only for a non-empty registration
     * number in the body, skips the vehicle itself, and comes before the
     * 404. An empty registration number that another vehicle already has
     * is refused by the unique index.
     */
    method UpdateVehicle(id: Id, p: VehiclePatch) returns (r: Result<Vehicle>)
      requires Valid()
      modifies this
      ensures Valid() && nextId == old(nextId)
      ensures (p.registrationNumber.Some? && p.registrationNumber.value != "" &&
               RegistrationInUse(old(vehicles), p.registrationNumber.value, Some(id))) ==> r == Err(RegistrationTaken)
      ensures r.Ok? <==> (id in old(vehicles) &&
                          (p.registrationNumber.None? || !RegistrationInUse(old(vehicles), p.registrationNumber.value, Some(id))))
      ensures r.Err? ==> vehicles == old(vehicles)
      ensures r.Ok? ==> r.value == ApplyVehiclePatch(old(vehicles)[id], p) && vehicles == old(vehicles)[id := r.value]
    {
      if p.registrationNumber.Some? && p.registrationNumber.value != "" &&
         RegistrationInUse(vehicles, p.registrationNumber.value, Some(id)) {
        return Err(RegistrationTaken);
      }
      if id !in vehicles {
        return Err(VehicleNotFound);
      }
      if p.registrationNumber.Some? && RegistrationInUse(vehicles, p.registrationNumber.value, Some(id)) {
        return Err(WriteRefused);
      }
      var updated := ApplyVehiclePatch(vehicles[id], p);
      vehicles := vehicles[id := updated];
      r := Ok(updated);
    }

    /** POST /:id/incidents: one incident is appended, reported by the actor. */
    method AddIncident(id: Id, body: Js.Object, actor: Id) returns (r: Result<Vehicle>)
      requires Valid()
      modifies this
      ensures Valid()
      ensures r.Ok? <==> id in old(vehicles)
      ensures r.Err? ==> r == Err(VehicleNotFound) && vehicles == old(vehicles)
      ensures r.Ok? ==> (
        var v := old(vehicles)[id];
        var added := Incident(old(nextId), NewIncidentFields(body, actor));
        FindIndex(v.incidents, IncidentKey, added.id).None? &&
        r.value == v.(incidents := v.incidents + [added]) &&
        vehicles == old(vehicles)[id := r.value])
    {
      if id !in vehicles {
        return Err(VehicleNotFound);
      }
      var v := vehicles[id];
      var added := Incident(nextId, NewIncidentFields(body, actor));
      var updated := v.(incidents := v.incidents + [added]);
      vehicles := vehicles[id := updated];
      nextId := nextId + 1;
      r := Ok(updated);
    }

    /** PUT /:id/incidents/:incidentId: the body's fields are merged into that one incident. */
    method UpdateIncident(id: Id, incidentId: Id, body: Js.Object) returns (r: Result<Vehicle>)
      requires Valid()
      modifies this
      ensures Valid() && nextId == old(nextId)
      ensures id !in old(vehicles) ==> r == Err(VehicleNotFound)
      ensures id in old(vehicles) && FindIndex(old(vehicles)[id].incidents, IncidentKey, incidentId).None? ==> r == Err(IncidentNotFound)
      ensures r.Ok? <==> id in old(vehicles) && FindIndex(old(vehicles)[id].incidents, IncidentKey, incidentId).Some?
      ensures r.Err? ==> vehicles == old(vehicles)
      ensures r.Ok? ==> (
        var v := old(vehicles)[id];
        var k := FindIndex(v.incidents, IncidentKey, incidentId).value;
        r.value == v.(incidents := v.incidents[k := Incident(incidentId, v.incidents[k].fields + body)]) &&
        vehicles == old(vehicles)[id := r.value])
    {
      if id !in vehicles {
        return Err(VehicleNotFound);
      }
      var v := vehicles[id];
      var k := FindIndex(v.incidents, IncidentKey, incidentId);
      if k.None? {
        return Err(IncidentNotFound);
      }
      var updated := v.(incidents := v.incidents[k.value := Incident(incidentId, v.incidents[k.value].fields + body)]);
      vehicles := vehicles[id := updated];
      r := Ok(updated);
    }

    /** DELETE /:id/incidents/:incidentId: pull by id; an id that is not there is no error. */
    method DeleteIncident(id: Id, incidentId: Id) returns (r: Result<()>)
      requires Valid()
      modifies this
      ensures Valid() && nextId == old(nextId)
      ensures r.Ok? <==> id in old(vehicles)
      ensures r.Err? ==> r == Err(VehicleNotFound) && vehicles == old(vehicles)
      ensures r.Ok? ==> (
        var v := old(vehicles)[id];
        vehicles == old(vehicles)[id := v.(incidents := RemoveAll(v.incidents, IncidentKey, incidentId))])
    {
      if id !in vehicles {
        return Err(VehicleNotFound);
      }
      var v := vehicles[id];
      var kept := RemoveAll(v.incidents, IncidentKey, incidentId);
      RemovePreservesUnique(v.incidents, IncidentKey, incidentId);
      ReplaceKeepsStoreValid(vehicles, nextId, id, v.(incidents := kept));
      vehicles := vehicles[id := v.(incidents := kept)];
      r := Ok(());
    }

    /** DELETE /:id/documents/:documentId: 404 for an unknown document, otherwise exactly that document goes. */
    method DeleteDocument(id: Id, documentId: Id) returns (r: Result<()>)
      requires Valid()
      modifies this
      ensures Valid() && nextId == old(nextId)
      ensures id !in old(vehicles) ==> r == Err(VehicleNotFound)
      ensures id in old(vehicles) && FindIndex(old(vehicles)[id].documents, DocumentKey, documentId).None? ==> r == Err(DocumentNotFound)
      ensures r.Ok? <==> id in old(vehicles) && FindIndex(old(vehicles)[id].documents, DocumentKey, documentId).Some?
      ensures r.Err? ==> vehicles == old(vehicles)
      ensures r.Ok? ==> (
        var v := old(vehicles)[id];
        id in vehicles && |vehicles[id].documents| == |v.documents| - 1 &&
        vehicles == old(vehicles)[id := v.(documents := RemoveAll(v.documents, DocumentKey, documentId))])
    {
      if id !in vehicles {
        return Err(VehicleNotFound);
      }
      var v := vehicles[id];
      if FindIndex(v.documents, DocumentKey, documentId).None? {
        return Err(DocumentNotFound);
      }
      UniquePresentOccursOnce(v.documents, DocumentKey, documentId);
      RemovePreservesUnique(v.documents, DocumentKey, documentId);
      var kept := RemoveAll(v.documents, DocumentKey, documentId);
      ReplaceKeepsStoreValid(vehicles, nextId, id, v.(documents := kept));
      vehicles := vehicles[id := v.(documents := kept)];
      r := Ok(());
    }

    /**
     * POST /:id/maintenance: the record is appended, performed by the actor;
     * a routine record also moves lastService to its date and nextServiceDue
     * to three calendar months after it.
     */
    method AddMaintenance(id: Id, kind: MaintenanceType, date: Date, mileage: real, description: string, cost: real, actor: Id)
      returns (r: Result<Vehicle>)
      requires Valid()
      modifies this
      ensures Valid()
      ensures r.Ok? <==> id in old(vehicles)
      ensures r.Err? ==> r == Err(VehicleNotFound) && vehicles == old(vehicles)
      ensures r.Ok? ==> (
        var v := old(vehicles)[id];
        r.value.maintenanceHistory == v.maintenanceHistory + [Maintenance(old(nextId), kind, date, mileage, description, cost, actor)] &&
        r.value.lastService == (if kind == Routine then date else v.lastService) &&
        r.value.nextServiceDue == (if kind == Routine then AddMonthsTo(date, 3) else v.nextServiceDue) &&
        r.value == v.(maintenanceHistory := r.value.maintenanceHistory, lastService := r.value.lastService,
                      nextServiceDue := r.value.nextServiceDue) &&
        vehicles == old(vehicles)[id := r.value])
    {
      if id !in vehicles {
        return Err(VehicleNotFound);
      }
      var v := vehicles[id];
      var record := Maintenance(nextId, kind, date, mileage, description, cost, actor);
      var updated := v.(maintenanceHistory := v.maintenanceHistory + [record]);
      if kind == Routine {
        updated := updated.(lastService := date, nextServiceDue := AddMonthsTo(date, 3));
      }
      vehicles := vehicles[id := updated];
      nextId := nextId + 1;
      r := Ok(updated);
    }

    /** GET /:id/stats: reads the vehicle and changes nothing. */
    method GetVehicleStats(id: Id, now: int) returns (r: Result<VehicleStats>)
      ensures id !in vehicles ==> r == Err(VehicleNotFound)
      ensures id in vehicles ==> r == Ok(Stats(vehicles[id], now))
    {
      if id !in vehicles {
        return Err(VehicleNotFound);
      }
      r := Ok(Stats(vehicles[id], now));
    }
  }

  /**
   * After a routine service the next one is due in 89 to 92 days, so a
   * vehicle serviced today is not due within the week.
   */
  lemma RoutineServiceNotDueSoon(v: Vehicle, date: Date)
    ensures var w := v.(lastService := date, nextServiceDue := AddMonthsTo(date, 3));
      89 * DayMs <= Millis(w.nextServiceDue) - Millis(date) <= 92 * DayMs &&
      !IsServiceDue(w, Millis(date))
  {
    AddThreeMonthsMillis(date);
  }
}
