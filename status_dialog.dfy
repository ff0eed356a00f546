/**
 * The delivery-status dialog of the web client: its table of statuses with
 * stepper positions, the step of the selected status, the rule that greys
 * out options, the stepper's order and the initial selection. The rule is
 * compared with the server's transition table.
 */
module DeliveryStatusDialog {
  import opened Outcome
  import DeliveryModel

  datatype StatusOption = StatusOption(name: string, title: string, step: int)

  /** The `deliveryStatuses` table, in source order. */
  const DeliveryStatuses: seq<StatusOption> := [
    StatusOption("scheduled", "Scheduled", 0),
    StatusOption("in_transit", "In Transit", 1),
    StatusOption("arrived", "Arrived at Location", 2),
    StatusOption("in_progress", "In Progress", 3),
    StatusOption("completed", "Completed", 4),
    StatusOption("cancelled", "Cancelled", -1)
  ]

  /** `deliveryStatuses.find(s => s.value === value)`. */
  function FindStatus(options: seq<StatusOption>, value: string): (r: Option<StatusOption>)
    ensures r.Some? ==> r.value in options && r.value.name == value
    ensures r.None? ==> forall k :: 0 <= k < |options| ==> options[k].name != value
    decreases |options|
  {
    if options == [] then None
    else if options[0].name == value then Some(options[0])
    else FindStatus(options[1..], value)
  }

  /** getCurrentStep: the step of the selected status, or 0 for a value not in the table. */
  function CurrentStep(selected: string): (step: int)
    ensures -1 <= step <= 4
    ensures FindStatus(DeliveryStatuses, selected).None? ==> step == 0
    ensures FindStatus(DeliveryStatuses, selected).Some? ==> step == FindStatus(DeliveryStatuses, selected).value.step
  {
    var found := FindStatus(DeliveryStatuses, selected);
    if found.Some? then found.value.step else 0
  }

  /** A menu option is greyed out when it lies before the selected step and is not 'cancelled'. */
  predicate Disabled(option: StatusOption, selected: string) {
    option.step < CurrentStep(selected) && option.name != "cancelled"
  }

  /** The form's initial selection: `currentStatus || 'scheduled'`. */
  function InitialSelection(currentStatus: Option<string>): (s: string)
    ensures currentStatus.Some? && currentStatus.value != "" ==> s == currentStatus.value
    ensures currentStatus.None? || currentStatus.value == "" ==> s == "scheduled"
  {
    if currentStatus.Some? && currentStatus.value != "" then currentStatus.value else "scheduled"
  }

  /** The option the table holds for a server status. */
  function OptionFor(t: DeliveryModel.Status): (o: StatusOption)
    ensures o in DeliveryStatuses && o.name == DeliveryModel.StatusName(t)
  {
    match t
    case Scheduled => DeliveryStatuses[0]
    case InTransit => DeliveryStatuses[1]
    case Arrived => DeliveryStatuses[2]
    case InProgress => DeliveryStatuses[3]
    case Completed => DeliveryStatuses[4]
    case Cancelled => DeliveryStatuses[5]
  }

  /** The table's step for each status: the server's rank along the forward chain, and -1 for cancelled. */
  lemma StepIsRank(t: DeliveryModel.Status)
    ensures CurrentStep(DeliveryModel.StatusName(t)) == (if t == DeliveryModel.Cancelled then -1 else DeliveryModel.Rank(t))
  {
  }

  /** With 'cancelled' selected (step -1) no option is disabled. */
  lemma CancelledDisablesNothing(option: StatusOption)
    requires option in DeliveryStatuses
    ensures !Disabled(option, "cancelled")
  {
  }

  /** Every move the server accepts is offered: its option is never greyed out while the current status is selected. */
  lemma ServerMovesAreOffered(c: DeliveryModel.Status, t: DeliveryModel.Status)
    requires DeliveryModel.CanTransitionTo(c, DeliveryModel.StatusName(t))
    ensures !Disabled(OptionFor(t), DeliveryModel.StatusName(c))
  {
    DeliveryModel.AllowedMoves(c, t);
    StepIsRank(c);
    StepIsRank(t);
  }

  /**
   * The dialog offers moves the server refuses: from 'scheduled' it offers
   * a skip straight to 'completed', and the current status itself.
   */
  lemma DialogOffersRefusedMoves()
    ensures !Disabled(OptionFor(DeliveryModel.Completed), "scheduled")
    ensures !DeliveryModel.CanTransitionTo(DeliveryModel.Scheduled, "completed")
    ensures !Disabled(OptionFor(DeliveryModel.Scheduled), "scheduled")
    ensures !DeliveryModel.CanTransitionTo(DeliveryModel.Scheduled, "scheduled")
  {
  }

  /** `.filter(status => status.step >= 0)`. */
  function OnStepper(options: seq<StatusOption>): (r: seq<StatusOption>)
    ensures forall k :: 0 <= k < |r| ==> r[k].step >= 0 && r[k] in options
    ensures forall o :: o in options && o.step >= 0 ==> o in r
    decreases |options|
  {
    if options == [] then []
    else if options[0].step >= 0 then [options[0]] + OnStepper(options[1..])
    else OnStepper(options[1..])
  }

  predicate SortedBySteps(options: seq<StatusOption>) {
    forall i, j :: 0 <= i < j < |options| ==> options[i].step <= options[j].step
  }

  /** One step of an insertion sort by step: x goes after every option with a step no greater. */
  function InsertByStep(x: StatusOption, sorted: seq<StatusOption>): (r: seq<StatusOption>)
    requires SortedBySteps(sorted)
    ensures SortedBySteps(r) && multiset(r) == multiset(sorted) + multiset{x}
    decreases |sorted|
  {
    if sorted == [] then [x]
    else if x.step < sorted[0].step then [x] + sorted
    else
      var rest := InsertByStep(x, sorted[1..]);
      assert sorted == [sorted[0]] + sorted[1..];
      assert forall k :: 0 <= k < |rest| ==> sorted[0].step <= rest[k].step by {
        forall k | 0 <= k < |rest|
          ensures sorted[0].step <= rest[k].step
        {
          assert rest[k] in multiset(rest);
          if rest[k] != x {
            assert rest[k] in multiset(sorted[1..]);
            var j :| 0 <= j < |sorted[1..]| && sorted[1..][j] == rest[k];
            assert sorted[j + 1] == rest[k];
          }
        }
      }
      [sorted[0]] + rest
  }

  /** `.sort((a, b) => a.step - b.step)`: ordered by step, the same options. */
  function SortBySteps(options: seq<StatusOption>): (r: seq<StatusOption>)
    ensures SortedBySteps(r) && multiset(r) == multiset(options)
    decreases |options|
  {
    if options == [] then []
    else
      assert options == [options[0]] + options[1..];
      InsertByStep(options[0], SortBySteps(options[1..]))
  }

  /** Sorting options that are already in order by strictly rising step changes nothing. */
  lemma {:induction false} SortStrictlySortedIsIdentity(options: seq<StatusOption>)
    requires forall i, j :: 0 <= i < j < |options| ==> options[i].step < options[j].step
    ensures SortBySteps(options) == options
    decreases |options|
  {
    if options != [] {
      SortStrictlySortedIsIdentity(options[1..]);
      assert options == [options[0]] + options[1..];
    }
  }

  /** The titles of a list of options, in order. */
  function Titles(options: seq<StatusOption>): (r: seq<string>)
    ensures |r| == |options| && forall k :: 0 <= k < |r| ==> r[k] == options[k].title
    decreases |options|
  {
    if options == [] then [] else [options[0].title] + Titles(options[1..])
  }

  /** The stepper's labels. */
  function StepperLabels(): seq<string> {
    Titles(SortBySteps(OnStepper(DeliveryStatuses)))
  }

  /** Options that all have a step pass the filter unchanged. */
  lemma {:induction false} OnStepperKeepsAll(options: seq<StatusOption>)
    requires forall k :: 0 <= k < |options| ==> options[k].step >= 0
    ensures OnStepper(options) == options
    decreases |options|
  {
    if options != [] {
      OnStepperKeepsAll(options[1..]);
      assert options == [options[0]] + options[1..];
    }
  }

  /** The filter drops a last option without a step. */
  lemma {:induction false} OnStepperDropsLast(options: seq<StatusOption>, last: StatusOption)
    requires last.step < 0
    ensures OnStepper(options + [last]) == OnStepper(options)
    decreases |options|
  {
    if options == [] {
      assert options + [last] == [last];
    } else {
      assert (options + [last])[0] == options[0] && (options + [last])[1..] == options[1..] + [last];
      OnStepperDropsLast(options[1..], last);
    }
  }

  /** A table whose only stepless option is its last one loses exactly that option. */
  lemma {:induction false} OnStepperDropsTrailing(options: seq<StatusOption>)
    requires |options| > 0 && options[|options| - 1].step < 0
    requires forall k :: 0 <= k < |options| - 1 ==> options[k].step >= 0
    ensures OnStepper(options) == options[..|options| - 1]
    decreases |options|
  {
    var n := |options| - 1;
    if n > 0 {
      var rest := options[1..];
      assert forall k :: 0 <= k < |rest| ==> rest[k] == options[k + 1];
      OnStepperDropsTrailing(rest);
      assert rest[..n - 1] == options[1..n];
      assert [options[0]] + options[1..n] == options[..n];
    }
  }

  /** Only 'cancelled' is filtered out of the table. */
  lemma OnStepperDropsCancelled()
    ensures OnStepper(DeliveryStatuses) == DeliveryStatuses[..5]
  {
    OnStepperDropsTrailing(DeliveryStatuses);
  }

  /** The table's forward chain is already in step order. */
  lemma ChainSorted()
    ensures SortBySteps(DeliveryStatuses[..5]) == DeliveryStatuses[..5]
  {
    SortStrictlySortedIsIdentity(DeliveryStatuses[..5]);
  }

  /** The stepper shows the forward chain of the table, in table order. */
  lemma StepperShowsTablePrefix()
    ensures StepperLabels() == Titles(DeliveryStatuses[..5])
  {
    OnStepperDropsCancelled();
    ChainSorted();
  }

  /** The stepper shows exactly the five non-cancel statuses, in order of step. */
  lemma StepperShowsForwardChain()
    ensures StepperLabels() == ["Scheduled", "In Transit", "Arrived at Location", "In Progress", "Completed"]
  {
    StepperShowsTablePrefix();
  }
}
