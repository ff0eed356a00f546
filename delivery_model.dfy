/**
 * The delivery document of the MongoDB backend: its enums and defaults, the
 * status transition table, the modifiability rule and the duration virtual.
 */
module DeliveryModel {
  import opened Outcome

  datatype Status = Scheduled | InTransit | Arrived | InProgress | Completed | Cancelled

  /** The `type` enum: 'pickup', 'delivery' and 'exchange'. */
  datatype Kind = Pickup | DropOff | Exchange

  datatype Priority = Low | Normal | High | Urgent

  const DefaultStatus: Status := Scheduled
  const DefaultPriority: Priority := Normal

  /** One entry of `statusHistory`; `timestamp` is in milliseconds since the epoch. */
  datatype HistoryEntry = HistoryEntry(status: Status, timestamp: int, updatedBy: Id, notes: Option<string>)

  datatype Delivery = Delivery(
    customer: Id,
    driver: Option<Id>,
    containers: seq<Id>,
    scheduledDate: int,
    kind: Kind,
    status: Status,
    priority: Priority,
    notes: Option<string>,
    statusHistory: seq<HistoryEntry>)

  /** The string the schema stores for each status. */
  function StatusName(s: Status): string {
    match s
    case Scheduled => "scheduled"
    case InTransit => "in_transit"
    case Arrived => "arrived"
    case InProgress => "in_progress"
    case Completed => "completed"
    case Cancelled => "cancelled"
  }

  /** The inverse of StatusName on the six enum strings; anything else is not a status. */
  function ParseStatus(name: string): (r: Option<Status>)
    ensures r.Some? ==> StatusName(r.value) == name
    ensures forall s: Status :: StatusName(s) == name ==> r == Some(s)
  {
    if name == "scheduled" then Some(Scheduled)
    else if name == "in_transit" then Some(InTransit)
    else if name == "arrived" then Some(Arrived)
    else if name == "in_progress" then Some(InProgress)
    else if name == "completed" then Some(Completed)
    else if name == "cancelled" then Some(Cancelled)
    else None
  }

  /** The literal `validTransitions` table: the statuses each status may move to. */
  function ValidTransitions(s: Status): seq<string> {
    match s
    case Scheduled => ["in_transit", "cancelled"]
    case InTransit => ["arrived", "cancelled"]
    case Arrived => ["in_progress", "cancelled"]
    case InProgress => ["completed", "cancelled"]
    case Completed => []
    case Cancelled => []
  }

  predicate Terminal(s: Status) {
    s == Completed || s == Cancelled
  }

  /** Position along the forward chain; cancelled sits with completed at the end. */
  function Rank(s: Status): (k: nat)
    ensures k <= 4
    ensures k == 4 <==> Terminal(s)
  {
    match s
    case Scheduled => 0
    case InTransit => 1
    case Arrived => 2
    case InProgress => 3
    case Completed => 4
    case Cancelled => 4
  }

  /**
   * canTransitionTo(newStatus): newStatus is one of the names listed for the
   * current status. Exactly the four forward steps and cancellation from a
   * non-terminal status pass; strings that are not statuses never do.
   */
  function CanTransitionTo(current: Status, newStatus: string): (ok: bool)
    ensures ok <==> (ParseStatus(newStatus).Some? && !Terminal(current) &&
                     (ParseStatus(newStatus).value == Cancelled || Rank(ParseStatus(newStatus).value) == Rank(current) + 1))
  {
    newStatus in ValidTransitions(current)
  }

  /** The transition table read on typed statuses. */
  predicate Allowed(s: Status, t: Status) {
    CanTransitionTo(s, StatusName(t))
  }

  /** canModify(): false exactly for completed and cancelled. */
  function CanModify(s: Status): (ok: bool)
    ensures ok <==> ValidTransitions(s) != []
  {
    !(s == Completed || s == Cancelled)
  }

  lemma AllowedMoves(s: Status, t: Status)
    ensures Allowed(s, t) <==>
      (s, t) == (Scheduled, InTransit) || (s, t) == (InTransit, Arrived) ||
      (s, t) == (Arrived, InProgress) || (s, t) == (InProgress, Completed) ||
      (!Terminal(s) && t == Cancelled)
  {
  }

  /** Completed and cancelled have no way out, and nothing moves to itself. */
  lemma TerminalAbsorbing(s: Status, name: string)
    ensures Terminal(s) ==> !CanTransitionTo(s, name)
    ensures !CanTransitionTo(s, StatusName(s))
  {
  }

  /** A status may be modified exactly when some move out of it is allowed. */
  lemma CanModifyIffMovable(s: Status)
    ensures CanModify(s) <==> exists t :: Allowed(s, t)
  {
    if CanModify(s) {
      assert Allowed(s, Cancelled);
    }
  }

  lemma AllowedRaisesRank(s: Status, t: Status)
    requires Allowed(s, t)
    ensures Rank(s) < Rank(t)
  {
  }

  /** A sequence of statuses each reachable from the previous one by an allowed move. */
  predicate IsRun(path: seq<Status>) {
    forall i :: 0 <= i < |path| - 1 ==> Allowed(path[i], path[i + 1])
  }

  lemma {:induction false} RunRaisesRank(path: seq<Status>)
    requires |path| >= 1 && IsRun(path)
    ensures Rank(path[|path| - 1]) >= Rank(path[0]) + |path| - 1
  {
    if |path| > 1 {
      var prefix := path[..|path| - 1];
      assert IsRun(prefix);
      RunRaisesRank(prefix);
      AllowedRaisesRank(path[|path| - 2], path[|path| - 1]);
    }
  }

  /** Any chain of allowed moves from scheduled makes at most four moves. */
  lemma {:induction false} RunFromScheduledIsShort(path: seq<Status>)
    requires |path| >= 1 && IsRun(path) && path[0] == Scheduled
    ensures |path| <= 5
  {
    RunRaisesRank(path);
  }

  /** The history timestamps never decrease. */
  predicate Chronological(h: seq<HistoryEntry>) {
    forall i, j :: 0 <= i <= j < |h| ==> h[i].timestamp <= h[j].timestamp
  }

  /**
   * The `duration` virtual: 0 with fewer than two history entries; otherwise
   * from the first entry to the last entry when completed, or to `now`.
   */
  function Duration(d: Delivery, now: int): (r: int)
    ensures |d.statusHistory| < 2 ==> r == 0
    ensures |d.statusHistory| >= 2 && d.status == Completed ==>
      r == d.statusHistory[|d.statusHistory| - 1].timestamp - d.statusHistory[0].timestamp
    ensures (Chronological(d.statusHistory) && |d.statusHistory| >= 1 &&
             now >= d.statusHistory[|d.statusHistory| - 1].timestamp) ==> r >= 0
  {
    var h := d.statusHistory;
    if |h| > 1 then
      var start := h[0].timestamp;
      var end := if d.status == Completed then h[|h| - 1].timestamp else now;
      end - start
    else 0
  }
}
