/**
 * The delivery handlers of the MongoDB backend. The collections are
 * in-memory maps keyed by id; the clock (`new Date()`) and the signed-in
 * user (`req.user._id`) are parameters.
 */
module DeliveryController {
  import opened Outcome
  import opened Arith
  import Js
  import Text
  import opened DeliveryModel

  const DeliveryNotFound := HttpError(404, "Delivery not found")
  const CustomerNotFound := HttpError(404, "Customer not found")
  const DriverNotFound := HttpError(404, "Driver not found")
  const ContainersNotFound := HttpError(400, "One or more containers not found")
  const CannotUpdateClosed := HttpError(400, "Cannot update completed or cancelled deliveries")
  const CannotDeleteCompleted := HttpError(400, "Cannot delete completed deliveries")
  const InvalidTransition := HttpError(400, "Invalid status transition")

  // ---------------------------------------------------------------------------
  // Pagination of the delivery listing
  // ---------------------------------------------------------------------------

  datatype Paging = Paging(page: int, limit: int, skip: int, totalPages: int)

  /** `parseInt(q) || fallback`: a missing query value, NaN and 0 all give the fallback. */
  function IntParamOr(q: Option<string>, fallback: int): (r: int)
    ensures q.None? ==> r == fallback
    ensures q.Some? ==> (r == fallback || Js.ParseInt(q.value) == Some(r))
    ensures q.Some? && Js.ParseInt(q.value).Some? && Js.ParseInt(q.value).value != 0 ==> r == Js.ParseInt(q.value).value
    ensures q.Some? && (Js.ParseInt(q.value).None? || Js.ParseInt(q.value).value == 0) ==> r == fallback
    ensures fallback != 0 ==> r != 0
  {
    if q.None? then fallback
    else match Js.ParseInt(q.value)
      case None => fallback
      case Some(n) => if n == 0 then fallback else n
  }

  /** The page, limit, skip and totalPages that getDeliveries computes for `total` matches. */
  function Paginate(pageQ: Option<string>, limitQ: Option<string>, total: nat): (p: Paging)
    ensures p.page == IntParamOr(pageQ, 1) && p.limit == IntParamOr(limitQ, 10)
    ensures p.page != 0 && p.limit != 0
    ensures pageQ.None? ==> p.page == 1
    ensures limitQ.None? ==> p.limit == 10
    ensures p.skip == (p.page - 1) * p.limit
    ensures p.limit > 0 ==> (p.totalPages - 1) * p.limit < total <= p.totalPages * p.limit
  {
    var page := IntParamOr(pageQ, 1);
    var limit := IntParamOr(limitQ, 10);
    Paging(page, limit, (page - 1) * limit, CeilDiv(total, limit))
  }

  /** The page numbers 1..totalPages are exactly the pages whose skip falls inside the result set. */
  lemma {:induction false} PageWithinResults(total: nat, limit: int, page: int)
    requires limit > 0 && page >= 1
    ensures (page - 1) * limit < total <==> page <= CeilDiv(total, limit)
  {
    var t := CeilDiv(total, limit);
    if page <= t {
      MulMonotone(page - 1, t - 1, limit);
    } else {
      MulMonotone(t, page - 1, limit);
    }
  }

  /** A page number the client wrote in decimal is the page served. */
  lemma PageQueryRoundTrip(n: nat, limitQ: Option<string>, total: nat)
    requires n >= 1
    ensures Paginate(Some(Text.NatToString(n)), limitQ, total).page == n
  {
    Js.ParseIntOfNatToString(n, "");
    assert Text.NatToString(n) + "" == Text.NatToString(n);
  }

  // ---------------------------------------------------------------------------
  // Reference checks
  // ---------------------------------------------------------------------------

  predicate Distinct(ids: seq<Id>) {
    forall i, j :: 0 <= i < j < |ids| ==> ids[i] != ids[j]
  }

  /** `Container.find({_id: {$in: ids}}).length`: how many distinct listed ids exist. */
  function FoundCount(ids: seq<Id>, known: set<Id>): nat {
    |FoundSet(ids, known)|
  }

  function FoundSet(ids: seq<Id>, known: set<Id>): (found: set<Id>)
    ensures forall i :: i in found <==> i in ids && i in known
  {
    set i | i in ids && i in known
  }

  lemma {:induction false} FoundCountBound(ids: seq<Id>, known: set<Id>)
    ensures FoundCount(ids, known) <= |ids|
    decreases |ids|
  {
    if ids != [] {
      var rest := ids[1..];
      FoundCountBound(rest, known);
      var all, tail := FoundSet(ids, known), FoundSet(rest, known);
      if ids[0] in known {
        assert all == tail + {ids[0]};
      } else {
        assert all == tail;
      }
    }
  }

  /** Every id known and none repeated, split at the first id. */
  lemma KnownDistinctCons(ids: seq<Id>, known: set<Id>)
    requires ids != []
    ensures ((forall i :: 0 <= i < |ids| ==> ids[i] in known) && Distinct(ids)) <==>
      (ids[0] in known && ids[0] !in ids[1..] &&
       (forall i :: 0 <= i < |ids[1..]| ==> ids[1..][i] in known) && Distinct(ids[1..]))
  {
    var x, rest := ids[0], ids[1..];
    if x in known && x !in rest && (forall i :: 0 <= i < |rest| ==> rest[i] in known) && Distinct(rest) {
      forall i | 0 <= i < |ids| ensures ids[i] in known {
        if i > 0 { assert ids[i] == rest[i - 1]; }
      }
      forall i, j | 0 <= i < j < |ids| ensures ids[i] != ids[j] {
        if i > 0 { assert ids[i] == rest[i - 1] && ids[j] == rest[j - 1]; }
      }
    }
    if (forall i :: 0 <= i < |ids| ==> ids[i] in known) && Distinct(ids) {
      forall i | 0 <= i < |rest| ensures rest[i] in known {
        assert rest[i] == ids[i + 1];
      }
      forall i, j | 0 <= i < j < |rest| ensures rest[i] != rest[j] {
        assert rest[i] == ids[i + 1] && rest[j] == ids[j + 1];
      }
      forall k | 0 <= k < |rest| ensures rest[k] != x {
        assert rest[k] == ids[k + 1];
      }
    }
  }

  /**
   * The container check passes exactly when every listed id exists and none
   * is listed twice: a repeated id is rejected like an unknown one.
   */
  lemma {:induction false} FoundCountExact(ids: seq<Id>, known: set<Id>)
    ensures FoundCount(ids, known) == |ids| <==>
      (forall i :: 0 <= i < |ids| ==> ids[i] in known) && Distinct(ids)
    decreases |ids|
  {
    if ids != [] {
      var x, rest := ids[0], ids[1..];
      FoundCountExact(rest, known);
      FoundCountBound(rest, known);
      KnownDistinctCons(ids, known);
      var all, tail := FoundSet(ids, known), FoundSet(rest, known);
      if x in known && x !in rest {
        assert all == tail + {x};
        assert x !in tail;
      } else {
        assert all == tail;
      }
    }
  }

  /** A supplied, non-empty container list that does not fully resolve. */
  predicate ContainersMismatch(ids: Option<seq<Id>>, known: set<Id>) {
    ids.Some? && |ids.value| > 0 && FoundCount(ids.value, known) != |ids.value|
  }

  // ---------------------------------------------------------------------------
  // The status history invariant
  // ---------------------------------------------------------------------------

  function Statuses(h: seq<HistoryEntry>): (r: seq<Status>)
    ensures |r| == |h| && forall i :: 0 <= i < |h| ==> r[i] == h[i].status
  {
    seq(|h|, i requires 0 <= i < |h| => h[i].status)
  }

  /**
   * The history starts at scheduled, each entry is an allowed move from the
   * one before, and the last entry is the current status.
   */
  predicate HistoryTracksStatus(d: Delivery) {
    var h := d.statusHistory;
    |h| >= 1 && h[0].status == Scheduled && IsRun(Statuses(h)) && h[|h| - 1].status == d.status
  }

  /** A tracked delivery has at most five history entries. */
  lemma HistoryIsShort(d: Delivery)
    requires HistoryTracksStatus(d)
    ensures |d.statusHistory| <= 5
  {
    RunFromScheduledIsShort(Statuses(d.statusHistory));
  }

  datatype NewDelivery = NewDelivery(
    customerId: Id,
    containers: Option<seq<Id>>,
    scheduledDate: int,
    kind: Kind,
    priority: Option<Priority>,
    notes: Option<string>)

  /** The document createDelivery saves. */
  function Created(input: NewDelivery, actor: Id, now: int): (d: Delivery)
    ensures d.status == Scheduled && d.driver.None?
    ensures d.statusHistory == [HistoryEntry(Scheduled, now, actor, None)]
    ensures HistoryTracksStatus(d)
  {
    Delivery(
      input.customerId, None,
      if input.containers.Some? then input.containers.value else [],
      input.scheduledDate, input.kind, Scheduled,
      if input.priority.Some? then input.priority.value else DefaultPriority,
      input.notes,
      [HistoryEntry(Scheduled, now, actor, None)])
  }

  /** The document after an accepted status change. */
  function Advance(d: Delivery, t: Status, notes: Option<string>, actor: Id, now: int): (r: Delivery)
    ensures r.status == t
    ensures r.statusHistory == d.statusHistory + [HistoryEntry(t, now, actor, notes)]
    ensures r == d.(status := r.status, statusHistory := r.statusHistory)
  {
    d.(status := t, statusHistory := d.statusHistory + [HistoryEntry(t, now, actor, notes)])
  }

  /** An allowed move keeps the history in step with the status. */
  lemma AdvanceKeepsTracking(d: Delivery, t: Status, notes: Option<string>, actor: Id, now: int)
    requires HistoryTracksStatus(d) && Allowed(d.status, t)
    ensures HistoryTracksStatus(Advance(d, t, notes, actor, now))
  {
    var r := Advance(d, t, notes, actor, now);
    var s, s' := Statuses(d.statusHistory), Statuses(r.statusHistory);
    forall i | 0 <= i < |s'| - 1 ensures Allowed(s'[i], s'[i + 1]) {
      if i < |s| - 1 {
        assert s'[i] == s[i] && s'[i + 1] == s[i + 1];
      }
    }
  }

  /**
   * The fields of Delivery an update body may carry; each present field is
   * `$set` as given. `driver` and `notes` may be present as `null`
   * (`Some(None)`), which clears them, and `statusHistory` may be present
   * too, which replaces the history wholesale.
   */
  datatype DeliveryPatch = DeliveryPatch(
    customerId: Option<Id>,
    customer: Option<Id>,
    driver: Option<Option<Id>>,
    containers: Option<seq<Id>>,
    scheduledDate: Option<int>,
    kind: Option<Kind>,
    status: Option<Status>,
    priority: Option<Priority>,
    notes: Option<Option<string>>,
    statusHistory: Option<seq<HistoryEntry>>)

  const EmptyPatch := DeliveryPatch(None, None, None, None, None, None, None, None, None, None)

  function Pick<T>(o: Option<T>, current: T): T {
    if o.Some? then o.value else current
  }

  /**
   * `$set: updates`, after `updates.customer = updates.customerId`: a
   * validated `customerId` wins over a `customer` field, which is written
   * unchecked.
   */
  function ApplyPatch(d: Delivery, p: DeliveryPatch): (r: Delivery)
    ensures p.customerId.Some? ==> r.customer == p.customerId.value
    ensures p.customerId.None? && p.customer.Some? ==> r.customer == p.customer.value
    ensures p.driver.None? ==> r.driver == d.driver
    ensures p.driver.Some? ==> r.driver == p.driver.value
    ensures p.driver == Some(None) ==> r.driver.None?
    ensures p.containers.None? ==> r.containers == d.containers
    ensures p.containers.Some? ==> r.containers == p.containers.value
    ensures p.scheduledDate.None? ==> r.scheduledDate == d.scheduledDate
    ensures p.scheduledDate.Some? ==> r.scheduledDate == p.scheduledDate.value
    ensures p.kind.None? ==> r.kind == d.kind
    ensures p.kind.Some? ==> r.kind == p.kind.value
    ensures p.priority.None? ==> r.priority == d.priority
    ensures p.priority.Some? ==> r.priority == p.priority.value
    ensures p.notes.None? ==> r.notes == d.notes
    ensures p.notes.Some? ==> r.notes == p.notes.value
    ensures p.statusHistory.None? ==> r.statusHistory == d.statusHistory
    ensures p.statusHistory.Some? ==> r.statusHistory == p.statusHistory.value
    ensures r.status == (if p.status.Some? then p.status.value else d.status)
    ensures p == EmptyPatch ==> r == d
  {
    Delivery(
      Pick(p.customerId, Pick(p.customer, d.customer)),
      Pick(p.driver, d.driver),
      Pick(p.containers, d.containers),
      Pick(p.scheduledDate, d.scheduledDate),
      Pick(p.kind, d.kind),
      Pick(p.status, d.status),
      Pick(p.priority, d.priority),
      Pick(p.notes, d.notes),
      Pick(p.statusHistory, d.statusHistory))
  }

  /**
   * updateDelivery can move the status without the transition table and
   * without a history entry: any patch that changes the status of a tracked
   * delivery and leaves the history alone puts the history out of step.
   */
  lemma PatchDesyncsHistory(d: Delivery, p: DeliveryPatch)
    requires HistoryTracksStatus(d)
    requires p.status.Some? && p.status.value != d.status && p.statusHistory.None?
    ensures !HistoryTracksStatus(ApplyPatch(d, p))
  {
  }

  /** A patch may also replace the history outright: an empty one leaves no trace of any status. */
  lemma PatchErasesHistory(d: Delivery, p: DeliveryPatch)
    requires p.statusHistory == Some([])
    ensures !HistoryTracksStatus(ApplyPatch(d, p))
  {
  }

  class DeliveryStore {
    var deliveries: map<Id, Delivery>
    var customers: set<Id>
    var containers: set<Id>
    var drivers: set<Id>
    var nextId: Id

    /** Ids handed out so far are below nextId, so a new one is fresh. */
    ghost predicate Valid()
      reads this
    {
      forall id :: id in deliveries ==> id < nextId
    }

    ghost predicate AllTracked()
      reads this
    {
      forall id :: id in deliveries ==> HistoryTracksStatus(deliveries[id])
    }

    constructor (customers: set<Id>, containers: set<Id>, drivers: set<Id>)
      ensures Valid() && AllTracked() && deliveries == map[]
      ensures this.customers == customers && this.containers == containers && this.drivers == drivers
    {
      deliveries := map[];
      this.customers := customers;
      this.containers := containers;
      this.drivers := drivers;
      nextId := 0;
    }

    method CreateDelivery(input: NewDelivery, actor: Id, now: int) returns (r: Result<Id>)
      requires Valid()
      modifies this
      ensures Valid()
      ensures customers == old(customers) && containers == old(containers) && drivers == old(drivers)
      ensures input.customerId !in customers ==> r == Err(CustomerNotFound)
      ensures input.customerId in customers && ContainersMismatch(input.containers, containers) ==>
        r == Err(ContainersNotFound)
      ensures r.Err? ==> deliveries == old(deliveries)
      ensures r.Ok? <==> input.customerId in customers && !ContainersMismatch(input.containers, containers)
      ensures r.Ok? ==> r.value !in old(deliveries) && deliveries == old(deliveries)[r.value := Created(input, actor, now)]
      ensures old(AllTracked()) ==> AllTracked()
    {
      if input.customerId !in customers {
        return Err(CustomerNotFound);
      }
      if ContainersMismatch(input.containers, containers) {
        return Err(ContainersNotFound);
      }
      var id := nextId;
      deliveries := deliveries[id := Created(input, actor, now)];
      nextId := nextId + 1;
      r := Ok(id);
    }

    method UpdateDelivery(id: Id, p: DeliveryPatch) returns (r: Result<Delivery>)
      requires Valid()
      modifies this
      ensures Valid()
      ensures customers == old(customers) && containers == old(containers) && drivers == old(drivers) && nextId == old(nextId)
      ensures id !in old(deliveries) ==> r == Err(DeliveryNotFound)
      ensures id in old(deliveries) && Terminal(old(deliveries)[id].status) ==> r == Err(CannotUpdateClosed)
      ensures id in old(deliveries) && !Terminal(old(deliveries)[id].status) ==>
        (if p.customerId.Some? && p.customerId.value !in customers then r == Err(CustomerNotFound)
         else if p.containers.Some? && FoundCount(p.containers.value, containers) != |p.containers.value| then r == Err(ContainersNotFound)
         else r == Ok(ApplyPatch(old(deliveries)[id], p)))
      ensures r.Err? ==> deliveries == old(deliveries)
      ensures r.Ok? ==> deliveries == old(deliveries)[id := r.value]
    {
      if id !in deliveries {
        return Err(DeliveryNotFound);
      }
      var d := deliveries[id];
      if d.status == Completed || d.status == Cancelled {
        return Err(CannotUpdateClosed);
      }
      if p.customerId.Some? && p.customerId.value !in customers {
        return Err(CustomerNotFound);
      }
      if p.containers.Some? && FoundCount(p.containers.value, containers) != |p.containers.value| {
        return Err(ContainersNotFound);
      }
      var updated := ApplyPatch(d, p);
      deliveries := deliveries[id := updated];
      r := Ok(updated);
    }

    method DeleteDelivery(id: Id) returns (r: Result<()>)
      requires Valid()
      modifies this
      ensures Valid()
      ensures customers == old(customers) && containers == old(containers) && drivers == old(drivers) && nextId == old(nextId)
      ensures id !in old(deliveries) ==> r == Err(DeliveryNotFound)
      ensures id in old(deliveries) && old(deliveries)[id].status == Completed ==> r == Err(CannotDeleteCompleted)
      ensures r.Ok? <==> id in old(deliveries) && old(deliveries)[id].status != Completed
      ensures r.Err? ==> deliveries == old(deliveries)
      ensures r.Ok? ==> deliveries == old(deliveries) - {id}
      ensures old(AllTracked()) ==> AllTracked()
    {
      if id !in deliveries {
        return Err(DeliveryNotFound);
      }
      if deliveries[id].status == Completed {
        return Err(CannotDeleteCompleted);
      }
      deliveries := deliveries - {id};
      r := Ok(());
    }

    method UpdateDeliveryStatus(id: Id, status: string, notes: Option<string>, actor: Id, now: int)
      returns (r: Result<Delivery>)
      requires Valid()
      modifies this
      ensures Valid()
      ensures customers == old(customers) && containers == old(containers) && drivers == old(drivers) && nextId == old(nextId)
      ensures id !in old(deliveries) ==> r == Err(DeliveryNotFound)
      ensures id in old(deliveries) && !CanTransitionTo(old(deliveries)[id].status, status) ==> r == Err(InvalidTransition)
      ensures r.Ok? <==> id in old(deliveries) && CanTransitionTo(old(deliveries)[id].status, status)
      ensures r.Err? ==> deliveries == old(deliveries)
      ensures r.Ok? ==> (ParseStatus(status).Some? &&
                         r.value == Advance(old(deliveries)[id], ParseStatus(status).value, notes, actor, now) &&
                         deliveries == old(deliveries)[id := r.value])
      ensures old(AllTracked()) ==> AllTracked()
    {
      if id !in deliveries {
        return Err(DeliveryNotFound);
      }
      var d := deliveries[id];
      if !CanTransitionTo(d.status, status) {
        return Err(InvalidTransition);
      }
      var t := ParseStatus(status).value;
      assert StatusName(t) == status;
      var updated := Advance(d, t, notes, actor, now);
      if HistoryTracksStatus(d) {
        AdvanceKeepsTracking(d, t, notes, actor, now);
      }
      deliveries := deliveries[id := updated];
      r := Ok(updated);
    }

    method AssignDriver(id: Id, driverId: Id) returns (r: Result<Delivery>)
      requires Valid()
      modifies this
      ensures Valid()
      ensures customers == old(customers) && containers == old(containers) && drivers == old(drivers) && nextId == old(nextId)
      ensures id !in old(deliveries) ==> r == Err(DeliveryNotFound)
      ensures id in old(deliveries) && driverId !in drivers ==> r == Err(DriverNotFound)
      ensures r.Ok? <==> id in old(deliveries) && driverId in drivers
      ensures r.Err? ==> deliveries == old(deliveries)
      ensures r.Ok? ==> (r.value == old(deliveries)[id].(driver := Some(driverId)) &&
                         deliveries == old(deliveries)[id := r.value])
      ensures old(AllTracked()) ==> AllTracked()
    {
      if id !in deliveries {
        return Err(DeliveryNotFound);
      }
      if driverId !in drivers {
        return Err(DriverNotFound);
      }
      var updated := deliveries[id].(driver := Some(driverId));
      deliveries := deliveries[id := updated];
      r := Ok(updated);
    }
  }
}
