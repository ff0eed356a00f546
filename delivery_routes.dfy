/**
 * The delivery routes of the relational (Sequelize) backend: creation, the
 * status PATCH with its completedDate rule, and the bulk re-sequencing
 * route. This backend has its own status enum and no transition table.
 */
module DeliveryRoutes {
  import opened Outcome

  datatype Status = Pending | Allocated | InProgress | Completed | Cancelled

  /** The `type` ENUM: 'delivery', 'collection' and 'both'. */
  datatype Kind = Deliver | Collect | Both

  function StatusName(s: Status): string {
    match s
    case Pending => "pending"
    case Allocated => "allocated"
    case InProgress => "in_progress"
    case Completed => "completed"
    case Cancelled => "cancelled"
  }

  function ParseStatus(name: string): (r: Option<Status>)
    ensures r.Some? ==> StatusName(r.value) == name
    ensures forall s: Status :: StatusName(s) == name ==> r == Some(s)
  {
    if name == "pending" then Some(Pending)
    else if name == "allocated" then Some(Allocated)
    else if name == "in_progress" then Some(InProgress)
    else if name == "completed" then Some(Completed)
    else if name == "cancelled" then Some(Cancelled)
    else None
  }

  const NotFound := HttpError(404, "Delivery not found")
  /** Every exception in these routes is answered with this. */
  const ServerError := HttpError(500, "Server error")

  /** A row of the `deliveries` table; dates are milliseconds since the epoch. */
  datatype Row = Row(
    customerId: Id,
    kind: Kind,
    scheduledDate: int,
    vehicleId: Option<Id>,
    driverId: Option<Id>,
    status: Status,
    completedDate: Option<int>,
    sequence: Option<int>,
    notes: Option<string>)

  /**
   * The request body of POST /. A field that is missing, or (for `type`) not
   * one of the ENUM values, is None.
   */
  datatype NewRow = NewRow(
    customerId: Option<Id>,
    kind: Option<Kind>,
    scheduledDate: Option<int>,
    vehicleId: Option<Id>,
    driverId: Option<Id>,
    sequence: Option<int>,
    notes: Option<string>)

  /** completedDate is set exactly when the status is completed. */
  predicate CompletionStamped(row: Row) {
    row.completedDate.Some? <==> row.status == Completed
  }

  /**
   * The row the status PATCH writes: `completedDate || new Date()` when
   * completed, null otherwise. A supplied date of 0 is falsy, so it gives
   * way to the current time like a missing one.
   */
  function WithStatus(row: Row, t: Status, completedDate: Option<int>, now: int): (r: Row)
    ensures r.status == t && CompletionStamped(r)
    ensures t == Completed && completedDate.Some? && completedDate.value != 0 ==> r.completedDate == completedDate
    ensures t == Completed && (completedDate.None? || completedDate.value == 0) ==> r.completedDate == Some(now)
    ensures r == row.(status := t, completedDate := r.completedDate)
  {
    var stamp := if completedDate.Some? && completedDate.value != 0 then completedDate.value else now;
    row.(status := t, completedDate := if t == Completed then Some(stamp) else None)
  }

  /** Moving a completed row to any other status clears its completedDate. */
  lemma LeavingCompletedClearsDate(row: Row, t: Status, completedDate: Option<int>, now: int)
    requires row.status == Completed && t != Completed
    ensures WithStatus(row, t, completedDate, now).completedDate.None?
    ensures CompletionStamped(row) ==> !CompletionStamped(row.(status := t))
  {
  }

  /** A status PATCH without a status keeps the status but clears the date, so a completed row loses its stamp. */
  lemma MissingStatusUnstampsCompleted(row: Row)
    requires row.status == Completed
    ensures !CompletionStamped(row.(completedDate := None))
  {
  }

  /** One element of the PATCH /sequence body; None is a value that is not an integer. */
  datatype SequenceUpdate = SequenceUpdate(id: Id, sequence: Option<int>)

  predicate AllIntegers(ups: seq<SequenceUpdate>) {
    forall i :: 0 <= i < |ups| ==> ups[i].sequence.Some?
  }

  /** `Delivery.update({sequence}, {where: {id}})`: a missing id matches no row and is no error. */
  function SetSequence(rows: map<Id, Row>, u: SequenceUpdate): (r: map<Id, Row>)
    requires u.sequence.Some?
    ensures r.Keys == rows.Keys
  {
    if u.id in rows then rows[u.id := rows[u.id].(sequence := u.sequence)] else rows
  }

  /** The updates applied one after another, in list order. */
  function ApplySequences(rows: map<Id, Row>, ups: seq<SequenceUpdate>): (r: map<Id, Row>)
    requires AllIntegers(ups)
    ensures r.Keys == rows.Keys
    decreases |ups|
  {
    if ups == [] then rows else ApplySequences(SetSequence(rows, ups[0]), ups[1..])
  }

  /** The sequence the last update naming `id` asks for, if any does. */
  function LastSequenceFor(ups: seq<SequenceUpdate>, id: Id): Option<int>
    decreases |ups|
  {
    if ups == [] then None
    else
      var later := LastSequenceFor(ups[1..], id);
      if later.Some? then later
      else if ups[0].id == id then ups[0].sequence
      else None
  }

  /**
   * After re-sequencing, a listed row carries the sequence of the LAST
   * update naming it, and an unlisted row is untouched.
   */
  lemma {:induction false} ApplySequencesAt(rows: map<Id, Row>, ups: seq<SequenceUpdate>, id: Id)
    requires AllIntegers(ups) && id in rows
    ensures var r := ApplySequences(rows, ups);
      id in r &&
      r[id] == (if LastSequenceFor(ups, id).Some? then rows[id].(sequence := LastSequenceFor(ups, id)) else rows[id])
    decreases |ups|
  {
    if ups != [] {
      ApplySequencesAt(SetSequence(rows, ups[0]), ups[1..], id);
    }
  }

  /**
   * The transaction of PATCH /sequence, as intended: every update is applied,
   * or, when one value is not an integer, the transaction rolls back and
   * nothing changes.
   */
  function Resequenced(rows: map<Id, Row>, ups: seq<SequenceUpdate>): (r: Result<map<Id, Row>>)
    ensures r.Ok? <==> AllIntegers(ups)
    ensures r.Ok? ==> r.value.Keys == rows.Keys
  {
    if AllIntegers(ups) then Ok(ApplySequences(rows, ups)) else Err(ServerError)
  }

  /** The top-level names delivery.routes.js binds (its require lines); `sequelize` is not one. */
  const RouteFileBindings: set<string> :=
    {"express", "router", "Delivery", "Customer", "Vehicle", "Driver", "Location", "authenticate", "authorize", "Op"}

  /**
   * PATCH /sequence as written: `sequelize.transaction` names an identifier
   * the file never binds, so the handler throws a ReferenceError before any
   * write and the catch answers 500.
   */
  function SequenceRouteAsWritten(bindings: set<string>, rows: map<Id, Row>, ups: seq<SequenceUpdate>): (r: Result<map<Id, Row>>)
    ensures "sequelize" !in bindings ==> r == Err(ServerError)
    ensures "sequelize" in bindings ==> r == Resequenced(rows, ups)
  {
    if "sequelize" !in bindings then Err(ServerError) else Resequenced(rows, ups)
  }

  /** The route as written never re-sequences, even a well-formed request on an existing row. */
  lemma SequenceRouteAlwaysFails(rows: map<Id, Row>, ups: seq<SequenceUpdate>)
    ensures SequenceRouteAsWritten(RouteFileBindings, rows, ups) == Err(ServerError)
  {
  }

  /** A request the intended route serves and the written one refuses. */
  lemma SequenceRouteCounterexample()
    ensures var row := Row(1, Deliver, 0, None, None, Pending, None, None, None);
      var ups := [SequenceUpdate(7, Some(3))];
      SequenceRouteAsWritten(RouteFileBindings, map[7 := row], ups).Err? &&
      Resequenced(map[7 := row], ups) == Ok(map[7 := row.(sequence := Some(3))])
  {
    var row := Row(1, Deliver, 0, None, None, Pending, None, None, None);
    var ups := [SequenceUpdate(7, Some(3))];
    assert ApplySequences(map[7 := row], ups) == ApplySequences(SetSequence(map[7 := row], ups[0]), []);
    assert SetSequence(map[7 := row], ups[0]) == map[7 := row][7 := row.(sequence := Some(3))];
    assert map[7 := row][7 := row.(sequence := Some(3))] == map[7 := row.(sequence := Some(3))];
  }

  class DeliveryTable {
    var rows: map<Id, Row>
    var nextId: Id

    ghost predicate Valid()
      reads this
    {
      forall id :: id in rows ==> id < nextId
    }

    ghost predicate AllStamped()
      reads this
    {
      forall id :: id in rows ==> CompletionStamped(rows[id])
    }

    constructor ()
      ensures Valid() && AllStamped() && rows == map[]
    {
      rows := map[];
      nextId := 0;
    }

    /** POST /: the row starts `pending` whatever the body says; a missing required column is a 500. */
    method Create(input: NewRow) returns (r: Result<Id>)
      requires Valid()
      modifies this
      ensures Valid()
      ensures r.Ok? <==> input.customerId.Some? && input.kind.Some? && input.scheduledDate.Some?
      ensures r.Err? ==> r == Err(ServerError) && rows == old(rows)
      ensures r.Ok? ==> (r.value !in old(rows) &&
                         rows == old(rows)[r.value := Row(input.customerId.value, input.kind.value, input.scheduledDate.value,
                                                          input.vehicleId, input.driverId, Pending, None, input.sequence, input.notes)])
      ensures old(AllStamped()) ==> AllStamped()
    {
      if input.customerId.None? || input.kind.None? || input.scheduledDate.None? {
        return Err(ServerError);
      }
      var id := nextId;
      rows := rows[id := Row(input.customerId.value, input.kind.value, input.scheduledDate.value,
                             input.vehicleId, input.driverId, Pending, None, input.sequence, input.notes)];
      nextId := nextId + 1;
      r := Ok(id);
    }

    /**
     * PATCH /:id/status: any status of the ENUM is written, with no
     * transition check; a string outside the ENUM fails the write (500). A
     * body without `status` passes `status: undefined`, which the update
     * skips, while `completedDate` is still written as null.
     */
    method UpdateStatus(id: Id, status: Option<string>, completedDate: Option<int>, now: int) returns (r: Result<Row>)
      requires Valid()
      modifies this
      ensures Valid() && nextId == old(nextId)
      ensures id !in old(rows) ==> r == Err(NotFound)
      ensures id in old(rows) && status.Some? && ParseStatus(status.value).None? ==> r == Err(ServerError)
      ensures r.Ok? <==> id in old(rows) && (status.None? || ParseStatus(status.value).Some?)
      ensures r.Err? ==> rows == old(rows)
      ensures r.Ok? && status.Some? ==>
        r.value == WithStatus(old(rows)[id], ParseStatus(status.value).value, completedDate, now)
      ensures r.Ok? && status.None? ==> r.value == old(rows)[id].(completedDate := None)
      ensures r.Ok? ==> rows == old(rows)[id := r.value]
      ensures old(AllStamped()) && !(status.None? && id in old(rows) && old(rows)[id].status == Completed) ==> AllStamped()
    {
      if id !in rows {
        return Err(NotFound);
      }
      var updated;
      if status.None? {
        updated := rows[id].(completedDate := None);
      } else {
        var t := ParseStatus(status.value);
        if t.None? {
          return Err(ServerError);
        }
        updated := WithStatus(rows[id], t.value, completedDate, now);
      }
      rows := rows[id := updated];
      r := Ok(updated);
    }

    /**
     * PATCH /sequence with `sequelize` in scope: the loop of the source,
     * writing into the transaction's view and committing at the end.
     */
    method Resequence(ups: seq<SequenceUpdate>) returns (r: Result<()>)
      requires Valid()
      modifies this
      ensures Valid() && nextId == old(nextId)
      ensures Resequenced(old(rows), ups) == (if r.Ok? then Ok(rows) else Err(ServerError))
      ensures r.Err? ==> rows == old(rows)
      ensures old(AllStamped()) ==> AllStamped()
    {
      var staged := rows;
      var i := 0;
      while i < |ups|
        invariant 0 <= i <= |ups|
        invariant staged.Keys == rows.Keys
        invariant AllIntegers(ups[..i])
        invariant forall id :: id in staged ==> staged[id] == rows[id].(sequence := staged[id].sequence)
        invariant AllIntegers(ups[i..]) ==> AllIntegers(ups) && ApplySequences(staged, ups[i..]) == ApplySequences(rows, ups)
      {
        if ups[i].sequence.None? {
          assert !AllIntegers(ups);
          return Err(ServerError);
        }
        assert ups[i..][1..] == ups[i + 1..];
        assert AllIntegers(ups[i + 1..]) ==> AllIntegers(ups[i..]);
        staged := SetSequence(staged, ups[i]);
        assert ups[..i + 1] == ups[..i] + [ups[i]];
        i := i + 1;
      }
      assert ups[..i] == ups;
      rows := staged;
      r := Ok(());
    }
  }
}
