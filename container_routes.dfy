/**
 * The container routes of the relational backend: creation with barcode
 * uniqueness, the raw status PATCH, and the scan action that writes a
 * history row and moves the container's status, custodian and dates.
 */
module ContainerRoutes {
  import opened Outcome

  datatype ContainerType = Sacrificial | Reusable

  datatype Status = Available | InUse | InTransit | Disposed

  /** The `status` ENUM of containers. */
  function StatusName(s: Status): string {
    match s
    case Available => "available"
    case InUse => "in_use"
    case InTransit => "in_transit"
    case Disposed => "disposed"
  }

  /** The status a body string names, or None for a string outside the ENUM. */
  function ParseStatus(name: string): (r: Option<Status>)
    ensures r.Some? ==> StatusName(r.value) == name
    ensures forall s: Status :: StatusName(s) == name ==> r == Some(s)
  {
    if name == "available" then Some(Available)
    else if name == "in_use" then Some(InUse)
    else if name == "in_transit" then Some(InTransit)
    else if name == "disposed" then Some(Disposed)
    else None
  }

  /** The `action` ENUM of container_history; `Disposal` is the string 'disposed'. */
  datatype Action = Delivered | Collected | Cleaned | Disposal

  function ActionName(a: Action): string {
    match a
    case Delivered => "delivered"
    case Collected => "collected"
    case Cleaned => "cleaned"
    case Disposal => "disposed"
  }

  const NotFound := HttpError(404, "Container not found")
  const BarcodeTaken := HttpError(400, "Barcode already exists")
  const ServerError := HttpError(500, "Server error")

  /** A row of `containers`; dates are milliseconds since the epoch. */
  datatype Container = Container(
    barcode: string,
    containerType: ContainerType,
    status: Status,
    currentCustomerId: Option<Id>,
    lastUsedDate: Option<int>,
    lastCleanedDate: Option<int>)

  /** A row of `container_history`. */
  datatype HistoryRow = HistoryRow(
    containerId: Id,
    deliveryId: Id,
    customerId: Id,
    action: Action,
    weight: Option<real>,
    wasteType: Option<string>,
    notes: Option<string>,
    scannedLocation: Option<string>,
    scannedBy: Id)

  /**
   * The body of POST /:id/action. A missing value is None; so is an action
   * outside the ENUM, which the history insert refuses.
   */
  datatype ActionRequest = ActionRequest(
    action: Option<Action>,
    deliveryId: Option<Id>,
    customerId: Option<Id>,
    weight: Option<real>,
    wasteType: Option<string>,
    notes: Option<string>,
    location: Option<string>)

  /** The switch on the action. */
  function ActionStatus(a: Action): Status {
    match a
    case Delivered => InUse
    case Collected => InTransit
    case Cleaned => Available
    case Disposal => Disposed
  }

  /** Only a container that is in use has a custodian. */
  predicate CustodyConsistent(c: Container) {
    c.currentCustomerId.Some? ==> c.status == InUse
  }

  /** The container update that follows the history insert. */
  function AfterAction(c: Container, a: Action, customerId: Id, now: int): (r: Container)
    ensures r.status == ActionStatus(a)
    ensures r.currentCustomerId == (if a == Delivered then Some(customerId) else None)
    ensures r.lastUsedDate == (if a == Collected then Some(now) else c.lastUsedDate)
    ensures r.lastCleanedDate == (if a == Cleaned then Some(now) else c.lastCleanedDate)
    ensures r.barcode == c.barcode && r.containerType == c.containerType
    ensures CustodyConsistent(r)
  {
    c.(status := ActionStatus(a),
       currentCustomerId := if a == Delivered then Some(customerId) else None,
       lastUsedDate := if a == Collected then Some(now) else c.lastUsedDate,
       lastCleanedDate := if a == Cleaned then Some(now) else c.lastCleanedDate)
  }

  /** Each action leads to its own status, and the four statuses are distinct. */
  lemma ActionStatusInjective(a: Action, b: Action)
    ensures ActionStatus(a) == ActionStatus(b) <==> a == b
  {
  }

  /**
   * No guard on the current status: the new status depends on the action
   * alone, so a disposed container that is scanned as cleaned is available.
   */
  lemma NoStatusGuard(c: Container, d: Container, a: Action, customerId: Id, now: int)
    ensures AfterAction(c, a, customerId, now).status == AfterAction(d, a, customerId, now).status
    ensures c.status == Disposed ==> AfterAction(c, Cleaned, customerId, now).status == Available
  {
  }

  /** Scanning the same action twice at the same instant changes nothing the second time. */
  lemma AfterActionIdempotent(c: Container, a: Action, customerId: Id, now: int)
    ensures var once := AfterAction(c, a, customerId, now);
      AfterAction(once, a, customerId, now) == once
  {
  }

  predicate BarcodesUnique(cs: map<Id, Container>) {
    forall i, j :: i in cs && j in cs && i != j ==> cs[i].barcode != cs[j].barcode
  }

  /** `Container.findOne({where: {barcode}})` finds something. */
  predicate BarcodeInUse(cs: map<Id, Container>, barcode: string) {
    exists id :: id in cs && cs[id].barcode == barcode
  }

  class ContainerStore {
    var containers: map<Id, Container>
    var history: seq<HistoryRow>
    var nextId: Id

    ghost predicate Valid()
      reads this
    {
      (forall id :: id in containers ==> id < nextId) && BarcodesUnique(containers)
    }

    ghost predicate AllCustodyConsistent()
      reads this
    {
      forall id :: id in containers ==> CustodyConsistent(containers[id])
    }

    constructor ()
      ensures Valid() && AllCustodyConsistent() && containers == map[] && history == []
    {
      containers := map[];
      history := [];
      nextId := 0;
    }

    /**
     * POST /: a barcode already in the table is a 400; otherwise the container
     * starts available with no custodian. A missing barcode or an invalid
     * type fails the query or the insert (500).
     */
    method Create(barcode: Option<string>, containerType: Option<ContainerType>) returns (r: Result<Id>)
      requires Valid()
      modifies this
      ensures Valid() && history == old(history)
      ensures barcode.None? ==> r == Err(ServerError)
      ensures barcode.Some? && BarcodeInUse(old(containers), barcode.value) ==> r == Err(BarcodeTaken)
      ensures r.Ok? <==> barcode.Some? && !BarcodeInUse(old(containers), barcode.value) && containerType.Some?
      ensures r.Err? ==> containers == old(containers)
      ensures r.Ok? ==> (r.value !in old(containers) &&
                         containers == old(containers)[r.value := Container(barcode.value, containerType.value, Available, None, None, None)])
      ensures old(AllCustodyConsistent()) ==> AllCustodyConsistent()
    {
      if barcode.None? {
        return Err(ServerError);
      }
      if BarcodeInUse(containers, barcode.value) {
        return Err(BarcodeTaken);
      }
      if containerType.None? {
        return Err(ServerError);
      }
      var id := nextId;
      containers := containers[id := Container(barcode.value, containerType.value, Available, None, None, None)];
      nextId := nextId + 1;
      r := Ok(id);
    }

    /**
     * PATCH /:id/status: writes the status and touches nothing else, the
     * custodian included. A body without a status writes nothing, since the
     * update drops undefined values; a string outside the ENUM fails the
     * write and is answered with a 500.
     */
    method UpdateStatus(id: Id, status: Option<string>) returns (r: Result<Container>)
      requires Valid()
      modifies this
      ensures Valid() && history == old(history) && nextId == old(nextId)
      ensures id !in old(containers) ==> r == Err(NotFound)
      ensures id in old(containers) && status.Some? && ParseStatus(status.value).None? ==> r == Err(ServerError)
      ensures r.Ok? <==> id in old(containers) && (status.None? || ParseStatus(status.value).Some?)
      ensures r.Err? ==> containers == old(containers)
      ensures r.Ok? && status.Some? ==> r.value == old(containers)[id].(status := ParseStatus(status.value).value)
      ensures r.Ok? && status.None? ==> r.value == old(containers)[id]
      ensures r.Ok? ==> containers == old(containers)[id := r.value]
    {
      if id !in containers {
        return Err(NotFound);
      }
      var updated := containers[id];
      if status.Some? {
        var s := ParseStatus(status.value);
        if s.None? {
          return Err(ServerError);
        }
        updated := updated.(status := s.value);
      }
      containers := containers[id := updated];
      r := Ok(updated);
    }

    /**
     * POST /:id/action: one history row, then the container update. A
     * missing action, delivery or customer id fails the history insert
     * (those columns are NOT NULL), so nothing is written.
     */
    method RecordAction(id: Id, req: ActionRequest, actor: Id, now: int) returns (r: Result<HistoryRow>)
      requires Valid()
      modifies this
      ensures Valid() && nextId == old(nextId)
      ensures id !in old(containers) ==> r == Err(NotFound)
      ensures r.Ok? <==> id in old(containers) && req.action.Some? && req.deliveryId.Some? && req.customerId.Some?
      ensures r.Err? ==> containers == old(containers) && history == old(history)
      ensures r.Ok? ==> (r.value == HistoryRow(id, req.deliveryId.value, req.customerId.value, req.action.value,
                                               req.weight, req.wasteType, req.notes, req.location, actor) &&
                         history == old(history) + [r.value] &&
                         containers == old(containers)[id := AfterAction(old(containers)[id], req.action.value, req.customerId.value, now)])
      ensures old(AllCustodyConsistent()) ==> AllCustodyConsistent()
    {
      if id !in containers {
        return Err(NotFound);
      }
      if req.action.None? || req.deliveryId.None? || req.customerId.None? {
        return Err(ServerError);
      }
      var row := HistoryRow(id, req.deliveryId.value, req.customerId.value, req.action.value,
                            req.weight, req.wasteType, req.notes, req.location, actor);
      history := history + [row];
      containers := containers[id := AfterAction(containers[id], req.action.value, req.customerId.value, now)];
      r := Ok(row);
    }
  }

  /**
   * The status PATCH does not clear the custodian, so it can leave a
   * container with a customer that is not in use.
   */
  lemma StatusPatchBreaksCustody(c: Container, s: Status)
    requires c.currentCustomerId.Some? && s != InUse
    ensures !CustodyConsistent(c.(status := s))
  {
  }
}
