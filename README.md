# Medical-waste fleet manager: a Dafny model of its logic

The system is a web application for running a medical-waste collection
fleet. It keeps vehicles, staff, customers, deliveries, reusable waste
containers, incident reports and maintenance records. It has two backends
over the same domain: a document-store backend (`backend/models`,
`backend/controllers`) and a relational backend (`backend/src`). A React
client (`frontend/src`) keeps its own copies of these records in a Redux store.

This project models the parts of the system that carry rules:

- the delivery lifecycle of the document backend. Its transition table is
  `DeliveryModel`. The controller operations are `DeliveryController`: create,
  patch, delete, status move, driver assignment and pagination. Each
  operation acts on an in-memory store of deliveries.
- the relational backend's delivery routes (`DeliveryRoutes`): create, the
  status patch with its completion-date rule, and bulk re-sequencing. The
  container routes (`ContainerRoutes`) cover barcode-unique creation, the
  status patch and the action machine with its custody history. The
  incident hook (`IncidentReport`) covers the `INC-YYMM-NNNN` report number.
- the vehicle schema's virtuals and methods (`VehicleModel`), and the
  vehicle controller's operations on embedded incidents, maintenance
  records and documents (`VehicleController`). The controller also has the
  registration-number uniqueness check, the routine-service rule and the
  statistics.
- the request validators (`Validation`). They are written as loops that
  push messages, and each is proved equal to a list function.
- the client: the delivery-status dialog (`DeliveryStatusDialog`), the
  eight Redux slices (`DeliverySlice`, `ContainerSlice`, `CustomerSlice`,
  `VehicleSlice`, `FleetSlice`, `StaffSlice`, `MaintenanceSlice`,
  `IncidentSlice`), the `useTable` hook (`TableView`), the shared helpers
  (`Helpers`), and the formatting and paging rules of the staff and
  container pages (`StaffPage`, `ContainersPage`, `Words`).

Shared modules:

- `Js` models JavaScript values: truthiness, equality of values, `parseInt`,
  `<` on numbers and strings, and property lookup.
- `Text` holds ASCII case mapping, split/join and `padStart`.
- `Arith` holds `Math.ceil` of a quotient.
- `Calendar` holds `Date.prototype.setMonth` on civil dates.
- `Lists` and `ListCache` hold the find, replace-by-id, filter-delete and
  count operations the reducers share.

State that the source updates in place is modelled as a class. This covers
Redux slices, the `useTable` hook state, the backends' stores and the
containers page. Each method states its new state as a function of the
old state and its inputs, within the limits listed under "Left out", and
the lemmas beside it prove the invariants the source relies on. Examples of such
invariants are counters equal to filter-counts, the last history entry
equal to the current status, and a custodian only while a container is in
use. Pure code is modelled as functions and lemmas.

Some behaviours of the code look unintended; the model follows the code:
- a `disposed` container accepts any further action, so it can become
  `available` again. This is proved as `ContainerRoutes.NoStatusGuard`.
- `updateDelivery` writes the request body, `status` included, past the
  transition table. This is proved as `DeliveryController.PatchDesyncsHistory`.
  The body may also carry `statusHistory` and replace the history outright,
  proved as `DeliveryController.PatchErasesHistory`.
- the status patch can give a container a custodian while it is not in use.
  This is proved as `ContainerRoutes.StatusPatchBreaksCustody`.
- the maintenance validator throws on a null or undefined part instead of
  reporting it. This is proved as `Validation.MaintenanceThrowsOnNullPart`.

## Model

| member | source | states |
|---|---|---|
| DeliveryModel.ParseStatus | backend/models/delivery.js:26-30 | the status enum has exactly six names; parsing inverts StatusName and rejects every other string |
| DeliveryModel.CanTransitionTo | backend/models/delivery.js:84-95 | a move is allowed iff the target names a status, the current status is not completed or cancelled, and the target is cancelled or the next step of scheduled, in_transit, arrived, in_progress, completed |
| DeliveryModel.AllowedMoves | backend/models/delivery.js:85-92 | the allowed moves are exactly the four forward steps plus cancellation from each of the four non-terminal statuses |
| DeliveryModel.TerminalAbsorbing | backend/models/delivery.js:90-94 | completed and cancelled allow no move; no status may move to itself |
| DeliveryModel.CanModify | backend/models/delivery.js:79-81 | canModify is false exactly for the statuses whose transition list is empty |
| DeliveryModel.CanModifyIffMovable | backend/models/delivery.js:79-94 | a delivery can be modified iff some move out of its status is allowed |
| DeliveryModel.AllowedRaisesRank | backend/models/delivery.js:85-92 | every allowed move goes strictly forward along the chain |
| DeliveryModel.RunRaisesRank | backend/models/delivery.js:85-92 | a chain of n allowed moves advances at least n steps |
| DeliveryModel.RunFromScheduledIsShort | backend/models/delivery.js:85-92 | any chain of allowed moves from scheduled makes at most four moves |
| DeliveryModel.Duration | backend/models/delivery.js:67-76 | duration is 0 with fewer than two history entries, last minus first timestamp when completed, and never negative for a chronological history when now is at or after its last entry |
| DeliveryController.IntParamOr | backend/controllers/deliveryController.js:13-14 | `parseInt(q) \|\| fallback`: a value that parses to a nonzero integer gives that integer; a missing, unparsable or zero value gives the fallback; the result is never 0 |
| DeliveryController.Paginate | backend/controllers/deliveryController.js:13-15 | page is `parseInt(page) \|\| 1` and limit is `parseInt(limit) \|\| 10` (so they default to 1 and 10 and are never 0), skip is (page - 1) * limit, and totalPages is the ceiling of total / limit |
| DeliveryController.PageWithinResults | backend/controllers/deliveryController.js:15-53 | a page's skip falls inside the results iff the page is at most totalPages |
| DeliveryController.PageQueryRoundTrip | backend/controllers/deliveryController.js:13 | a page number written in decimal is the page served |
| DeliveryController.FoundCountBound | backend/controllers/deliveryController.js:94-98 | `Container.find` never finds more containers than ids were listed |
| DeliveryController.FoundCountExact | backend/controllers/deliveryController.js:94-98 | the container check passes iff every listed id exists and none is repeated |
| DeliveryController.KnownDistinctCons | backend/controllers/deliveryController.js:94-98 | a list of ids is all known and repeat-free iff its first id is known and not repeated and the rest is all known and repeat-free |
| DeliveryController.HistoryIsShort | backend/controllers/deliveryController.js:230-236 | a delivery whose history tracks its status has at most five history entries |
| DeliveryController.Created | backend/controllers/deliveryController.js:101-114 | a new delivery is scheduled, has no driver, and its history is exactly one scheduled entry by the actor |
| DeliveryController.Advance | backend/controllers/deliveryController.js:230-236 | an accepted status change sets the status and appends exactly one history entry, leaving every other field alone |
| DeliveryController.AdvanceKeepsTracking | backend/controllers/deliveryController.js:226-236 | an allowed move keeps the history in step with the status |
| DeliveryController.ApplyPatch | backend/controllers/deliveryController.js:143-167 | `$set` of the body changes only the fields present: a validated customerId wins over a raw customer field, each of driver, containers, scheduled date, kind, priority and notes is the one given or the old one, a null driver clears the driver, a supplied statusHistory replaces the history and an absent one keeps it, the status is the one given or the old one; an empty body changes nothing |
| DeliveryController.PatchDesyncsHistory | backend/controllers/deliveryController.js:143-167 | a body that changes the status but carries no history bypasses the transition table and leaves the history out of step |
| DeliveryController.PatchErasesHistory | backend/controllers/deliveryController.js:143-167 | a body carrying an empty statusHistory leaves a delivery whose history tracks no status |
| DeliveryController.DeliveryStore.CreateDelivery | backend/controllers/deliveryController.js:83-124 | 404 for an unknown customer, 400 when the containers do not all resolve, both without writing; otherwise stores Created under a fresh id |
| DeliveryController.DeliveryStore.UpdateDelivery | backend/controllers/deliveryController.js:127-176 | 404 when missing, 400 when completed or cancelled, 404/400 on a bad customer or container list, otherwise stores the patched document |
| DeliveryController.DeliveryStore.DeleteDelivery | backend/controllers/deliveryController.js:179-200 | 404 when missing, 400 when completed, otherwise removes exactly that delivery |
| DeliveryController.DeliveryStore.UpdateDeliveryStatus | backend/controllers/deliveryController.js:203-247 | 404 when missing, 400 unless the transition table allows the move, otherwise Advance; the history stays in step |
| DeliveryController.DeliveryStore.AssignDriver | backend/controllers/deliveryController.js:250-280 | 404 for an unknown delivery or driver, otherwise sets only the driver |
| DeliveryRoutes.ParseStatus | backend/src/models/delivery.js:35-38 | the relational status ENUM has exactly five names; parsing inverts StatusName and rejects every other string |
| DeliveryRoutes.WithStatus | backend/src/routes/delivery.routes.js:137-140 | the written row has the requested status, completedDate is the supplied date when it is truthy (not 0), or now, iff that status is completed, and null otherwise, and nothing else changes |
| DeliveryRoutes.LeavingCompletedClearsDate | backend/src/routes/delivery.routes.js:139 | moving a completed row to another status clears its completedDate |
| DeliveryRoutes.ApplySequences | backend/src/routes/delivery.routes.js:155-160 | applying the sequence updates keeps the set of rows |
| DeliveryRoutes.ApplySequencesAt | backend/src/routes/delivery.routes.js:155-160 | each listed row takes the sequence of the last update naming it; unlisted rows are untouched |
| DeliveryRoutes.Resequenced | backend/src/routes/delivery.routes.js:153-162 | the intended transaction commits iff every value is an integer, and otherwise changes nothing |
| DeliveryRoutes.SequenceRouteAsWritten | backend/src/routes/delivery.routes.js:149-167 | without a `sequelize` binding the route answers 500 and writes nothing |
| DeliveryRoutes.SequenceRouteAlwaysFails | backend/src/routes/delivery.routes.js:1-5 | the file's own bindings lack `sequelize`, so every request to the route fails |
| DeliveryRoutes.SequenceRouteCounterexample | backend/src/routes/delivery.routes.js:154 | a one-row request the intended route serves and the written route refuses |
| DeliveryRoutes.DeliveryTable.Create | backend/src/routes/delivery.routes.js:89-124 | a new row is pending whatever the body says; a missing required column is a 500 with no write |
| DeliveryRoutes.DeliveryTable.UpdateStatus | backend/src/routes/delivery.routes.js:128-146 | 404 for an unknown id, 500 for a status outside the ENUM, otherwise WithStatus with no transition check; a body without a status keeps the status and nulls completedDate; completedDate stays stamped exactly on completed rows except when a completed row is patched without a status |
| DeliveryRoutes.MissingStatusUnstampsCompleted | backend/src/routes/delivery.routes.js:137-140 | a completed row patched without a status keeps `completed` but loses its completedDate |
| DeliveryRoutes.DeliveryTable.Resequence | backend/src/routes/delivery.routes.js:149-167 | the loop's result is exactly Resequenced: all updates or none |
| ContainerRoutes.ParseStatus | backend/src/models/container.js:27 | a string names a status iff it is one of the four ENUM strings, and parsing inverts StatusName |
| ContainerRoutes.AfterAction | backend/src/routes/container.routes.js:146-168 | delivered, collected, cleaned and disposed give in_use, in_transit, available and disposed; the customer is kept iff delivered; lastUsedDate moves only on collected and lastCleanedDate only on cleaned |
| ContainerRoutes.ActionStatusInjective | backend/src/routes/container.routes.js:147-161 | the four actions lead to four different statuses |
| ContainerRoutes.NoStatusGuard | backend/src/routes/container.routes.js:128-168 | the resulting status does not depend on the current one, so cleaning a disposed container makes it available |
| ContainerRoutes.AfterActionIdempotent | backend/src/routes/container.routes.js:163-168 | repeating an action at the same instant changes nothing more |
| ContainerRoutes.StatusPatchBreaksCustody | backend/src/routes/container.routes.js:84-98 | the status PATCH keeps the custodian, so a container can hold a customer while not in use |
| ContainerRoutes.ContainerStore.Create | backend/src/routes/container.routes.js:61-81 | a barcode already in use is a 400 with no write; otherwise the new container is available with the given barcode and type |
| ContainerRoutes.ContainerStore.UpdateStatus | backend/src/routes/container.routes.js:84-98 | 404 for an unknown id; 500 with no write for a status outside the ENUM; a body without a status leaves the container as it was; otherwise only the status changes |
| ContainerRoutes.ContainerStore.RecordAction | backend/src/routes/container.routes.js:116-174 | 404 for an unknown container with no history row; otherwise exactly one history row with the request's fields and the scanner, then AfterAction on the container |
| IncidentReport.LastTwo | backend/src/models/incident.js:81 | `substr(-2)` keeps two characters, or all of a shorter string |
| IncidentReport.ReportNumber | backend/src/models/incident.js:80-84 | the report number always starts with "INC-" |
| IncidentReport.LastTwoOfYear | backend/src/models/incident.js:81 | the last two characters of a year from 10 on are two digits worth the year modulo 100 |
| IncidentReport.ReportNumberRoundTrip | backend/src/models/incident.js:78-85 | for any month and any draw in [0, 9998] the number has 13 characters and reads back as the year's last two digits, the 1-based month and the draw |
| IncidentReport.Incident.constructor | backend/src/models/incident.js:25-47 | a new incident keeps its type and severity, has status reported, and no report number yet |
| IncidentReport.Incident.BeforeCreate | backend/src/models/incident.js:77-86 | the hook writes the report number and nothing else |
| VehicleModel.DaysUntilService | backend/models/vehicle.js:207-212 | the day count is the ceiling of the time to the next service over one day |
| VehicleModel.InsuranceStatus | backend/models/vehicle.js:215-219 | valid iff the expiry is strictly after today, expired otherwise |
| VehicleModel.CeilDaysAtMost | backend/models/vehicle.js:211 | a rounded-up day count is at most k iff the time is at most k whole days |
| VehicleModel.IsServiceDue | backend/models/vehicle.js:222-224 | due iff the next service is at most seven days of time away (overdue included) |
| VehicleModel.IsInsuranceExpiringSoon | backend/models/vehicle.js:227-233 | true iff the expiry is at most `days` days of time away, with days defaulting to 30 |
| VehicleModel.TotalMaintenanceCostAppend | backend/models/vehicle.js:236-244 | the windowed cost sum splits over a concatenation of histories |
| VehicleModel.UnboundedTotalIsSum | backend/models/vehicle.js:236-244 | with neither bound the total is the sum of every cost |
| VehicleModel.WindowTotalBounded | backend/models/vehicle.js:236-244 | with non-negative costs a window's total lies between 0 and the unbounded total |
| VehicleController.ReplaceKeepsStoreValid | backend/controllers/vehicleController.js:76-91 | replacing a vehicle by one with the same registration number and fresh embedded ids keeps the registrations unique |
| VehicleController.Created | backend/models/vehicle.js:154-188 | a new vehicle's status is the one given or active; the modelled body has no embedded lists, so they start empty (see Left out) |
| VehicleController.ApplyVehiclePatch | backend/controllers/vehicleController.js:87-91 | `$set` writes each of registration number, status, fuel type, mileage and the three dates iff it is given and keeps it otherwise, so an empty patch changes nothing; the modelled patch has no embedded lists, so they are kept (see Left out) |
| VehicleController.NewIncidentFields | backend/controllers/vehicleController.js:141-144 | the new incident has every body field, reportedBy set to the actor, and status open unless the body gives one |
| VehicleController.Stats | backend/controllers/vehicleController.js:343-353 | totalIncidents and documentsCount are the list lengths; openIncidents is the length of the incidents filtered by status 'open' and expiringDocuments the length of the documents filtered by an expiry date at most thirty days ahead; the cost is the sum of all costs; daysUntilService is the number of days to the next service rounded up; the insurance status is valid iff the expiry is after now |
| VehicleController.ExpiredDocumentsCount | backend/controllers/vehicleController.js:350-352 | documents already past their expiry all count as expiring |
| VehicleController.ReportedIncidentIsOpen | backend/models/vehicle.js:82-86 | an incident reported without a status counts as open |
| VehicleController.OpenCountAfterAdd | backend/controllers/vehicleController.js:345 | adding an incident raises the open count by one iff it is open |
| VehicleController.VehicleStore.CreateVehicle | backend/controllers/vehicleController.js:44-64 | a registration number already stored is a 400 with no write; otherwise the Created vehicle is stored under a fresh id and registrations stay unique |
| VehicleController.VehicleStore.UpdateVehicle | backend/controllers/vehicleController.js:67-101 | the uniqueness check runs only when a registration number is given and ignores the vehicle itself; 404 for an unknown id; otherwise the patched vehicle is stored |
| VehicleController.VehicleStore.AddIncident | backend/controllers/vehicleController.js:129-153 | 404 for an unknown vehicle; otherwise exactly one incident reported by the actor is appended and the others are unchanged |
| VehicleController.VehicleStore.UpdateIncident | backend/controllers/vehicleController.js:156-181 | 404 for an unknown vehicle or incident; otherwise the body is merged into that one incident only |
| VehicleController.VehicleStore.DeleteIncident | backend/controllers/vehicleController.js:184-203 | 404 for an unknown vehicle; otherwise the incidents with that id are removed, and an absent id is no error |
| VehicleController.VehicleStore.DeleteDocument | backend/controllers/vehicleController.js:244-272 | 404 for an unknown vehicle or document; otherwise exactly that document is removed |
| VehicleController.VehicleStore.AddMaintenance | backend/controllers/vehicleController.js:275-307 | the record is appended; a routine record sets lastService to its date and nextServiceDue three calendar months later, other types leave both |
| VehicleController.VehicleStore.GetVehicleStats | backend/controllers/vehicleController.js:331-360 | 404 for an unknown vehicle, otherwise Stats of it, with nothing changed |
| VehicleController.RoutineServiceNotDueSoon | backend/controllers/vehicleController.js:295-299 | after a routine service the next one is 89 to 92 days away, so the vehicle is not due that day |
| Validation.RequiredMessage | backend/utils/validation.js:26 | the message is the field name followed by " is required" |
| Validation.MissingFields | backend/utils/validation.js:24-28 | at most one message per listed field, each ending in " is required" |
| Validation.MissingFieldsEmpty | backend/utils/validation.js:24-28 | no required-field message iff every listed field is truthy |
| Validation.RequiredMessageInjective | backend/utils/validation.js:26 | different fields give different messages |
| Validation.MissingFieldsReports | backend/utils/validation.js:24-28 | a listed field is reported iff it is falsy |
| Validation.MissingFieldsWhere | backend/utils/validation.js:24-28 | every required-field message names a listed field that is falsy |
| Validation.CheckRequired | backend/utils/validation.js:24-28 | the forEach loop yields exactly MissingFields, in list order |
| Validation.Flag | backend/utils/validation.js:32-34 | a check pushes its message iff it fails, and at most once |
| Validation.ValidateVehicleData | backend/utils/validation.js:7-59 | the pushes, in order, yield exactly VehicleErrors |
| Validation.VehicleErrorsEmpty | backend/utils/validation.js:7-59 | the vehicle validator returns no message iff every required field is truthy and the year, date, fuel type and mileage checks all pass |
| Validation.FalsyYearOnlyRequired | backend/utils/validation.js:24-34 | a falsy year gives "year is required" and never "Invalid year" |
| Validation.NotARequiredMessage | backend/utils/validation.js:24-28 | a message without the " is required" suffix is never a required-field message |
| Validation.FuelTypeReported | backend/utils/validation.js:48-51 | "Invalid fuel type" appears iff the fuel type is present and not one of petrol, diesel, electric, hybrid |
| Validation.MileageReported | backend/utils/validation.js:54-56 | a zero mileage is never reported and a negative one always is |
| Validation.ValidateIncidentData | backend/utils/validation.js:61-96 | the pushes, in order, yield exactly IncidentErrors |
| Validation.IncidentChecksReported | backend/utils/validation.js:73-93 | the type, status and cost messages each appear iff their own check fails; no message iff all checks pass |
| Validation.PartErrors | backend/utils/validation.js:133-141 | a part yields at most three messages |
| Validation.PartErrorsReport | backend/utils/validation.js:133-141 | each of a part's three messages appears iff its check fails: missing name, quantity not above 0, negative or non-numeric cost |
| Validation.PartMessagesDistinct | backend/utils/validation.js:134-140 | the three part messages at one index are different strings |
| Validation.ValidateMaintenanceData | backend/utils/validation.js:98-146 | the pushes, in order, yield exactly MaintenanceErrors |
| Validation.PartsErrorsStep | backend/utils/validation.js:131-143 | appending part i's messages to those of the first i parts gives those of the first i + 1 |
| Validation.CheckParts | backend/utils/validation.js:131-143 | the parts loop throws on a null or undefined part and otherwise appends every part's messages in index order |
| Validation.MaintenanceThrowsOnNullPart | backend/utils/validation.js:131-133 | the maintenance validator throws iff the parts array holds a null or undefined part |
| Validation.PartsErrorsInclude | backend/utils/validation.js:132-142 | every message of an earlier part is among the messages of the parts checked so far |
| Validation.ZeroQuantityReported | backend/utils/validation.js:136-138 | a part whose quantity is 0 is reported at its own index |
| Validation.PartErrorsEmpty | backend/utils/validation.js:133-141 | a non-null part yields no message iff its name is truthy, its quantity a positive number and its cost a non-negative number |
| Validation.PartsErrorsEmpty | backend/utils/validation.js:131-143 | the first n non-null parts yield no message iff every one of them passes the part checks |
| Validation.MaintenanceErrorsEmpty | backend/utils/validation.js:98-146 | the maintenance validator returns an empty list iff the required fields are truthy, the type, date, mileage and cost pass, and, when parts is an array, every part is non-null and passes |
| DeliveryStatusDialog.FindStatus | frontend/src/components/deliveries/DeliveryStatusUpdate.js:49 | `find` returns an option of the table with that value, or none when no option has it |
| DeliveryStatusDialog.CurrentStep | frontend/src/components/deliveries/DeliveryStatusUpdate.js:48-51 | the step of the selected status, 0 for a value not in the table, always within -1..4 |
| DeliveryStatusDialog.InitialSelection | frontend/src/components/deliveries/DeliveryStatusUpdate.js:39 | the current status when it is given and non-empty, otherwise scheduled |
| DeliveryStatusDialog.OptionFor | frontend/src/components/deliveries/DeliveryStatusUpdate.js:27-34 | every server status has an option in the table carrying its name |
| DeliveryStatusDialog.StepIsRank | frontend/src/components/deliveries/DeliveryStatusUpdate.js:27-34 | each status's step is its rank along the server's forward chain, and -1 for cancelled |
| DeliveryStatusDialog.CancelledDisablesNothing | frontend/src/components/deliveries/DeliveryStatusUpdate.js:84 | with cancelled selected no option is disabled |
| DeliveryStatusDialog.ServerMovesAreOffered | frontend/src/components/deliveries/DeliveryStatusUpdate.js:84 | every move the server's table accepts is enabled in the menu |
| DeliveryStatusDialog.DialogOffersRefusedMoves | frontend/src/components/deliveries/DeliveryStatusUpdate.js:84 | the menu offers a forward skip and re-selecting the current status, both of which the server refuses |
| DeliveryStatusDialog.OnStepper | frontend/src/components/deliveries/DeliveryStatusUpdate.js:61 | the filter keeps exactly the options with a step of 0 or more |
| DeliveryStatusDialog.InsertByStep | frontend/src/components/deliveries/DeliveryStatusUpdate.js:62 | inserting into a list sorted by step keeps it sorted and adds exactly that option |
| DeliveryStatusDialog.SortBySteps | frontend/src/components/deliveries/DeliveryStatusUpdate.js:62 | the sort yields the same options ordered by step |
| DeliveryStatusDialog.SortStrictlySortedIsIdentity | frontend/src/components/deliveries/DeliveryStatusUpdate.js:62 | options already in strictly rising step order are left as they are |
| DeliveryStatusDialog.Titles | frontend/src/components/deliveries/DeliveryStatusUpdate.js:63-67 | one label per option, in order |
| DeliveryStatusDialog.OnStepperKeepsAll | frontend/src/components/deliveries/DeliveryStatusUpdate.js:61 | options that all have a step pass the filter unchanged |
| DeliveryStatusDialog.OnStepperDropsLast | frontend/src/components/deliveries/DeliveryStatusUpdate.js:61 | a last option without a step is dropped |
| DeliveryStatusDialog.OnStepperDropsTrailing | frontend/src/components/deliveries/DeliveryStatusUpdate.js:61 | a table whose only stepless option is the last loses exactly that one |
| DeliveryStatusDialog.OnStepperDropsCancelled | frontend/src/components/deliveries/DeliveryStatusUpdate.js:27-34 | only cancelled is filtered out of the table |
| DeliveryStatusDialog.ChainSorted | frontend/src/components/deliveries/DeliveryStatusUpdate.js:27-32 | the forward chain is already in step order |
| DeliveryStatusDialog.StepperShowsTablePrefix | frontend/src/components/deliveries/DeliveryStatusUpdate.js:60-67 | the stepper shows the labels of the table's first five options |
| DeliveryStatusDialog.StepperShowsForwardChain | frontend/src/components/deliveries/DeliveryStatusUpdate.js:60-67 | the stepper shows exactly Scheduled, In Transit, Arrived at Location, In Progress, Completed |
| Lists.FindIndex | frontend/src/store/slices/deliverySlice.js:165-167 | `findIndex` gives the first position holding the id, or none when no record has it |
| Lists.RemoveAll | frontend/src/store/slices/deliverySlice.js:184-186 | `filter` keeps exactly the records with another id and drops as many as have the id |
| Lists.ReplaceFirst | frontend/src/store/slices/deliverySlice.js:165-170 | the first record with the id is replaced and the length kept; with no such record nothing changes |
| Lists.Filter | backend/controllers/vehicleController.js:345 | `filter` keeps exactly the records that pass the test, and as many as the test counts |
| Lists.FilterAll | frontend/src/hooks/useTable.js:67-69 | a test every element passes keeps the whole array, in order |
| Lists.FilterAppend | frontend/src/store/slices/staffSlice.js:22-33 | filtering a concatenation is the concatenation of the filtered parts, in order |
| Lists.FilterCongruent | frontend/src/hooks/useTable.js:33-45 | two tests that agree on every record filter to the same sequence |
| Lists.FilterFilter | frontend/src/hooks/useTable.js:33-45 | filtering by one test and then another equals filtering once by both |
| Lists.CountUpdate | frontend/src/store/slices/staffSlice.js:60-80 | overwriting one record moves a filter-count by what left and what arrived |
| Lists.CountRemoveUnique | frontend/src/store/slices/staffSlice.js:81-89 | with unique ids, deleting a present id lowers each filter-count by whether the one removed record passed it |
| Lists.AdjustCount | frontend/src/store/slices/staffSlice.js:67-76 | the guarded decrement-then-increment of a counter equals moving it by what left and what arrived, and leaves it alone when the watched field did not change |
| ListCache.DeleteCachedOnce | frontend/src/store/slices/deliverySlice.js:182-188 | with unique ids, deleting a cached id removes exactly one record and keeps ids unique |
| ListCache.DeleteUncached | frontend/src/store/slices/deliverySlice.js:182-188 | deleting an uncached id leaves the list as it was |
| ListCache.DeleteRepeatedId | frontend/src/store/slices/deliverySlice.js:182-188 | with totalCount equal to the list length and an id cached k >= 2 times, the delete shortens the list by k, so the list ends below totalCount - 1, the count the delete leaves |
| ListCache.CacheWritesKeepIdsUnique | frontend/src/store/slices/deliverySlice.js:148-171 | replace-by-id keeps cached ids unique, and so does adding a new id at either end |
| DeliverySlice.Slice.constructor | frontend/src/store/slices/deliverySlice.js:100-109 | the initial state: no deliveries, count 0, page 1, flags off, errors and selection null |
| DeliverySlice.Slice.SetCurrentPage | frontend/src/store/slices/deliverySlice.js:115-117 | only currentPage changes |
| DeliverySlice.Slice.SetSelectedDelivery | frontend/src/store/slices/deliverySlice.js:118-120 | only selectedDelivery changes |
| DeliverySlice.Slice.ClearError | frontend/src/store/slices/deliverySlice.js:121-124 | error and manifestError become null and nothing else changes |
| DeliverySlice.Slice.Pending | frontend/src/store/slices/deliverySlice.js:129-132 | every list thunk's pending sets loading and clears error, nothing else |
| DeliverySlice.Slice.Rejected | frontend/src/store/slices/deliverySlice.js:138-141 | every list thunk's rejected clears loading and stores the payload as the error |
| DeliverySlice.Slice.FetchFulfilled | frontend/src/store/slices/deliverySlice.js:133-137 | the list and totalCount become the server's |
| DeliverySlice.Slice.CreateFulfilled | frontend/src/store/slices/deliverySlice.js:148-152 | the new delivery goes first, totalCount grows by one, and a new id keeps ids unique |
| DeliverySlice.Slice.ReplaceFulfilled | frontend/src/store/slices/deliverySlice.js:163-171 | update, status and assign replace the first delivery with the id; the length never changes |
| DeliverySlice.Slice.DeleteFulfilled | frontend/src/store/slices/deliverySlice.js:182-188 | every delivery with the id goes and totalCount drops by exactly one |
| DeliverySlice.Slice.ManifestPending | frontend/src/store/slices/deliverySlice.js:233-236 | only the manifest flags change |
| DeliverySlice.Slice.ManifestFulfilled | frontend/src/store/slices/deliverySlice.js:237-239 | only manifestGenerating changes |
| DeliverySlice.Slice.ManifestRejected | frontend/src/store/slices/deliverySlice.js:240-243 | only the manifest flags change; the list and loading are untouched |
| ContainerSlice.Slice.constructor | frontend/src/store/slices/containerSlice.js:83-93 | the initial state: no containers, count 0, page 1, flags off, errors and selection null, empty history |
| ContainerSlice.Slice.SetCurrentPage | frontend/src/store/slices/containerSlice.js:99-101 | only currentPage changes |
| ContainerSlice.Slice.SetSelectedContainer | frontend/src/store/slices/containerSlice.js:102-104 | only selectedContainer changes |
| ContainerSlice.Slice.ClearError | frontend/src/store/slices/containerSlice.js:105-108 | error and historyError become null and nothing else changes |
| ContainerSlice.Slice.Pending | frontend/src/store/slices/containerSlice.js:113-116 | every list thunk's pending sets loading and clears error |
| ContainerSlice.Slice.Rejected | frontend/src/store/slices/containerSlice.js:122-125 | every list thunk's rejected clears loading and stores the payload as the error |
| ContainerSlice.Slice.FetchFulfilled | frontend/src/store/slices/containerSlice.js:117-121 | the list and totalCount become the server's |
| ContainerSlice.Slice.CreateFulfilled | frontend/src/store/slices/containerSlice.js:132-136 | the new container goes first and totalCount grows by one |
| ContainerSlice.Slice.ReplaceFulfilled | frontend/src/store/slices/containerSlice.js:147-155 | update and assign replace the first container with the id and keep the length |
| ContainerSlice.Slice.DeleteFulfilled | frontend/src/store/slices/containerSlice.js:166-172 | every container with the id goes and totalCount drops by one |
| ContainerSlice.Slice.HistoryPending | frontend/src/store/slices/containerSlice.js:198-201 | only the history flags change |
| ContainerSlice.Slice.HistoryFulfilled | frontend/src/store/slices/containerSlice.js:202-205 | only containerHistory and historyLoading change |
| ContainerSlice.Slice.HistoryRejected | frontend/src/store/slices/containerSlice.js:206-209 | only the history flags change |
| CustomerSlice.Slice.constructor | frontend/src/store/slices/customerSlice.js:57-64 | the initial state: no customers, count 0, page 1, not loading, error and selection null |
| CustomerSlice.Slice.SetCurrentPage | frontend/src/store/slices/customerSlice.js:70-72 | only currentPage changes |
| CustomerSlice.Slice.SetSelectedCustomer | frontend/src/store/slices/customerSlice.js:73-75 | only selectedCustomer changes |
| CustomerSlice.Slice.ClearError | frontend/src/store/slices/customerSlice.js:76-78 | only error changes, to null |
| CustomerSlice.Slice.Pending | frontend/src/store/slices/customerSlice.js:83-86 | every thunk's pending sets loading and clears error |
| CustomerSlice.Slice.Rejected | frontend/src/store/slices/customerSlice.js:92-95 | every thunk's rejected clears loading and stores the payload as the error |
| CustomerSlice.Slice.FetchFulfilled | frontend/src/store/slices/customerSlice.js:87-91 | the list and totalCount become the server's |
| CustomerSlice.Slice.CreateFulfilled | frontend/src/store/slices/customerSlice.js:102-106 | the new customer goes first and totalCount grows by one |
| CustomerSlice.Slice.UpdateFulfilled | frontend/src/store/slices/customerSlice.js:117-125 | the first customer with the id is replaced and the length kept |
| CustomerSlice.Slice.DeleteFulfilled | frontend/src/store/slices/customerSlice.js:136-142 | every customer with the id goes and totalCount drops by one |
| VehicleSlice.RejectionMessage | frontend/src/store/slices/vehicleSlice.js:122-125 | the error is the payload's message when that is truthy and the thunk's fallback otherwise, so it is never empty |
| VehicleSlice.Synced | frontend/src/store/slices/vehicleSlice.js:169-171 | the selected vehicle is replaced iff it has the returned vehicle's id; with nothing selected, a returned vehicle without an `_id` (`undefined === undefined`) becomes the selection, any other leaves it empty |
| VehicleSlice.Dropped | frontend/src/store/slices/vehicleSlice.js:188-190 | the selection is cleared iff it has the deleted id, so it never holds that id |
| VehicleSlice.ReplaceKeepsSelectedInStep | frontend/src/store/slices/vehicleSlice.js:163-173 | replace-by-id together with the selection sync keeps the selection equal to its cached copy |
| VehicleSlice.DeleteKeepsSelectedInStep | frontend/src/store/slices/vehicleSlice.js:185-192 | filter-delete together with the selection drop keeps the selection equal to its cached copy |
| VehicleSlice.Slice.constructor | frontend/src/store/slices/vehicleSlice.js:89-95 | the initial state: no vehicles, no selection, flags off, error null |
| VehicleSlice.Slice.ClearError | frontend/src/store/slices/vehicleSlice.js:101-103 | only error changes, to null |
| VehicleSlice.Slice.ClearSuccess | frontend/src/store/slices/vehicleSlice.js:104-106 | only success changes, to false |
| VehicleSlice.Slice.SetSelectedVehicle | frontend/src/store/slices/vehicleSlice.js:107-109 | only the selection changes |
| VehicleSlice.Slice.FetchPending | frontend/src/store/slices/vehicleSlice.js:114-117 | the read thunks' pending sets loading and clears error |
| VehicleSlice.Slice.WritePending | frontend/src/store/slices/vehicleSlice.js:142-146 | the write thunks' pending also clears success |
| VehicleSlice.Slice.Rejected | frontend/src/store/slices/vehicleSlice.js:122-125 | every rejected clears loading and stores RejectionMessage |
| VehicleSlice.Slice.FetchAllFulfilled | frontend/src/store/slices/vehicleSlice.js:118-121 | the list becomes the server's |
| VehicleSlice.Slice.FetchOneFulfilled | frontend/src/store/slices/vehicleSlice.js:132-135 | the fetched vehicle becomes the selection |
| VehicleSlice.Slice.CreateFulfilled | frontend/src/store/slices/vehicleSlice.js:147-151 | the new vehicle goes last and success is set |
| VehicleSlice.Slice.ReplaceFulfilled | frontend/src/store/slices/vehicleSlice.js:163-173 | update, addIncident and uploadDocument replace the cached vehicle and a matching selection; the selection stays in step |
| VehicleSlice.Slice.DeleteFulfilled | frontend/src/store/slices/vehicleSlice.js:185-192 | every vehicle with the id goes, a matching selection is cleared, and the selection stays in step |
| FleetSlice.NewVehicle | frontend/src/store/slices/fleetSlice.js:48-60 | a supplied id wins over the clock, the lists always start empty, and every other supplied property is kept |
| FleetSlice.ScheduledRecord | frontend/src/store/slices/fleetSlice.js:80-85 | the record has the details plus an id "m" followed by at most three digits, today's date, and status Scheduled, which override the details |
| FleetSlice.SmallNumbersAreShort | frontend/src/store/slices/fleetSlice.js:82 | a number below 1000 is written with at most three digits |
| FleetSlice.NewFine | frontend/src/store/slices/fleetSlice.js:97-104 | a supplied id wins over "TF" plus the clock, the status is always unpaid, and every other supplied property is kept |
| FleetSlice.Slice.constructor | frontend/src/store/slices/fleetSlice.js:108-134 | the initial state holds the one mock vehicle, no selection, status idle, error null |
| FleetSlice.Slice.SetSelectedVehicle | frontend/src/store/slices/fleetSlice.js:140-142 | only the selection changes |
| FleetSlice.Slice.Pending | frontend/src/store/slices/fleetSlice.js:147-149 | pending sets the status to loading |
| FleetSlice.Slice.Rejected | frontend/src/store/slices/fleetSlice.js:154-157 | rejected sets the status to failed and stores the error message |
| FleetSlice.Slice.FetchFulfilled | frontend/src/store/slices/fleetSlice.js:150-153 | the list becomes the fetched one and the status succeeded |
| FleetSlice.Slice.AddVehicleFulfilled | frontend/src/store/slices/fleetSlice.js:163-166 | the vehicle goes last and the status is idle |
| FleetSlice.Slice.UpdateStatusFulfilled | frontend/src/store/slices/fleetSlice.js:173-178 | only the status of the first vehicle with the id changes; an unknown id changes nothing |
| FleetSlice.Slice.ScheduleMaintenanceFulfilled | frontend/src/store/slices/fleetSlice.js:181-186 | the first vehicle with the id gets exactly one more maintenance record |
| FleetSlice.Slice.AddTrafficFineFulfilled | frontend/src/store/slices/fleetSlice.js:192-199 | the status becomes idle; the first vehicle with the id gets its fine list created if missing and one more fine |
| StaffSlice.NewStaffMember | frontend/src/store/slices/staffSlice.js:42-46 | a supplied id wins over the clock, the status is always Active, and every other supplied property is kept |
| StaffSlice.VehicleFines | frontend/src/store/slices/staffSlice.js:24-30 | one vehicle's contribution: none (a throw) iff some fine's driver is not a string, otherwise exactly its fines for the driver, ignoring case, in their order and with their repetitions, each tagged with the vehicle number (it equals `TagAll` of `Filter`) |
| StaffSlice.DriverFines | frontend/src/store/slices/staffSlice.js:22-33 | the reduce throws iff some vehicle has a fine whose driver is not a string, and otherwise collects exactly the driver's fines over all vehicles, tagged; the result equals the left fold `FleetFines`, vehicle by vehicle in fleet order and each vehicle's fines in their order |
| StaffSlice.TagAll | frontend/src/store/slices/staffSlice.js:28-31 | the map keeps the fines' order and count and tags each with the vehicle number |
| StaffSlice.FleetFinesCons | frontend/src/store/slices/staffSlice.js:22-33 | folding from the left puts the first vehicle's tagged matches ahead of those of the rest |
| StaffSlice.UpdateKeepsCounters | frontend/src/store/slices/staffSlice.js:60-80 | replacing a member by one with the same id moves the active and driver counts by what left and what arrived |
| StaffSlice.DeleteKeepsCounters | frontend/src/store/slices/staffSlice.js:81-89 | with unique ids, deleting a present member keeps the counters matching the list |
| StaffSlice.UpdateStep | frontend/src/store/slices/staffSlice.js:60-80 | an update keeps the counters matching the list whenever they matched before |
| StaffSlice.DeleteStep | frontend/src/store/slices/staffSlice.js:81-89 | a delete of a present id keeps the counters matching the list whenever they matched before |
| StaffSlice.RepeatedIdBreaksCounters | frontend/src/store/slices/staffSlice.js:81-89 | from counters that match the list, deleting an id held by two or more members leaves counters (as DeleteStaffMember sets them) that do not match the list: every such member leaves but totalStaff drops by one |
| StaffSlice.Slice.constructor | frontend/src/store/slices/staffSlice.js:4-13 | the initial state: no staff, counters 0, no selection or fines, status idle, error null |
| StaffSlice.Slice.SetStaff | frontend/src/store/slices/staffSlice.js:54-59 | the list is stored with its length, active count and driver count |
| StaffSlice.Slice.UpdateStaffMember | frontend/src/store/slices/staffSlice.js:60-80 | the first member with the id is replaced and each counter moves by what left and arrived; an unknown id changes nothing; the counters keep matching |
| StaffSlice.Slice.DeleteStaffMember | frontend/src/store/slices/staffSlice.js:81-89 | for a present id the counters drop once for the member found and every member with the id leaves; an absent id changes nothing; unique ids keep the counters matching |
| StaffSlice.Slice.SetSelectedStaffMember | frontend/src/store/slices/staffSlice.js:90-92 | only the selection changes |
| StaffSlice.Slice.SetStatus | frontend/src/store/slices/staffSlice.js:93-95 | only the status changes |
| StaffSlice.Slice.SetError | frontend/src/store/slices/staffSlice.js:96-99 | the error is stored and the status becomes failed |
| StaffSlice.Slice.Pending | frontend/src/store/slices/staffSlice.js:103-105 | pending sets the status to loading |
| StaffSlice.Slice.Rejected | frontend/src/store/slices/staffSlice.js:110-113 | rejected sets the status to failed and stores the message |
| StaffSlice.Slice.DriverFinesFulfilled | frontend/src/store/slices/staffSlice.js:106-109 | the fines are stored and the status is idle |
| StaffSlice.Slice.AddStaffMemberFulfilled | frontend/src/store/slices/staffSlice.js:117-123 | the member goes last, totalStaff grows by one and each counter it falls under by one; a new id keeps the counters matching |
| MaintenanceSlice.StatusCountsWithinTotal | frontend/src/store/slices/maintenanceSlice.js:18-24 | the two status counters never count one record twice, so together they stay within the total, and the third counter is within it too |
| MaintenanceSlice.AddKeepsConsistent | frontend/src/store/slices/maintenanceSlice.js:25-31 | appending a record with a new id raises exactly the counters it falls under and keeps ids unique |
| MaintenanceSlice.UpdateKeepsConsistent | frontend/src/store/slices/maintenanceSlice.js:32-54 | replacing a record by one with the same id moves each counter by what left and what arrived |
| MaintenanceSlice.DeleteKeepsConsistent | frontend/src/store/slices/maintenanceSlice.js:55-64 | with unique ids, deleting a present id removes one record and its counts |
| MaintenanceSlice.UpdateStep | frontend/src/store/slices/maintenanceSlice.js:32-54 | an update keeps the counters matching the list whenever they matched before |
| MaintenanceSlice.DeleteStep | frontend/src/store/slices/maintenanceSlice.js:55-64 | a delete of a present id keeps the counters matching the list whenever they matched before |
| MaintenanceSlice.Slice.constructor | frontend/src/store/slices/maintenanceSlice.js:3-12 | the initial state: an empty list, counters 0, no selection, status idle, error null |
| MaintenanceSlice.Slice.SetMaintenanceRecords | frontend/src/store/slices/maintenanceSlice.js:18-24 | the list is stored with its length and its three filter-counts |
| MaintenanceSlice.Slice.AddMaintenanceTask | frontend/src/store/slices/maintenanceSlice.js:25-31 | the record goes last, the total grows by one and each counter it falls under by one; a new id keeps the counters matching |
| MaintenanceSlice.Slice.UpdateMaintenanceTask | frontend/src/store/slices/maintenanceSlice.js:32-54 | the first record with the id is replaced and each counter moves by what left and arrived; an unknown id changes nothing; the counters keep matching |
| MaintenanceSlice.Slice.DeleteMaintenanceTask | frontend/src/store/slices/maintenanceSlice.js:55-64 | for a present id the counters drop once for the record found and every record with the id leaves; an absent id changes nothing |
| MaintenanceSlice.Slice.SetSelectedTask | frontend/src/store/slices/maintenanceSlice.js:65-67 | only the selection changes |
| MaintenanceSlice.Slice.SetStatus | frontend/src/store/slices/maintenanceSlice.js:68-70 | only the status changes |
| MaintenanceSlice.Slice.SetError | frontend/src/store/slices/maintenanceSlice.js:71-74 | the error is stored and the status becomes failed |
| IncidentSlice.StatusCountsWithinTotal | frontend/src/store/slices/incidentSlice.js:18-24 | the two status counters never count one record twice, so together they stay within the total, and the third counter is within it too |
| IncidentSlice.AddKeepsConsistent | frontend/src/store/slices/incidentSlice.js:25-31 | appending a record with a new id raises exactly the counters it falls under and keeps ids unique |
| IncidentSlice.UpdateKeepsConsistent | frontend/src/store/slices/incidentSlice.js:32-54 | replacing a record by one with the same id moves each counter by what left and what arrived |
| IncidentSlice.DeleteKeepsConsistent | frontend/src/store/slices/incidentSlice.js:55-64 | with unique ids, deleting a present id removes one record and its counts |
| IncidentSlice.UpdateStep | frontend/src/store/slices/incidentSlice.js:32-54 | an update keeps the counters matching the list whenever they matched before |
| IncidentSlice.DeleteStep | frontend/src/store/slices/incidentSlice.js:55-64 | a delete of a present id keeps the counters matching the list whenever they matched before |
| IncidentSlice.Slice.constructor | frontend/src/store/slices/incidentSlice.js:3-12 | the initial state: an empty list, counters 0, no selection, status idle, error null |
| IncidentSlice.Slice.SetIncidents | frontend/src/store/slices/incidentSlice.js:18-24 | the list is stored with its length and its three filter-counts |
| IncidentSlice.Slice.AddIncident | frontend/src/store/slices/incidentSlice.js:25-31 | the record goes last, the total grows by one and each counter it falls under by one; a new id keeps the counters matching |
| IncidentSlice.Slice.UpdateIncident | frontend/src/store/slices/incidentSlice.js:32-54 | the first record with the id is replaced and each counter moves by what left and arrived; an unknown id changes nothing; the counters keep matching |
| IncidentSlice.Slice.DeleteIncident | frontend/src/store/slices/incidentSlice.js:55-64 | for a present id the counters drop once for the record found and every record with the id leaves; an absent id changes nothing |
| IncidentSlice.Slice.SetSelectedIncident | frontend/src/store/slices/incidentSlice.js:65-67 | only the selection changes |
| IncidentSlice.Slice.SetStatus | frontend/src/store/slices/incidentSlice.js:68-70 | only the status changes |
| IncidentSlice.Slice.SetError | frontend/src/store/slices/incidentSlice.js:71-74 | the error is stored and the status becomes failed |
| TableView.Passes | frontend/src/hooks/useTable.js:70-76 | a string filter throws exactly on a row whose value is not a string; a row that passes a string filter contains it, ignoring case, and a row that passes any other filter holds a strictly equal value |
| TableView.FilterBy | frontend/src/hooks/useTable.js:70-76 | the filter throws iff some row throws, and otherwise keeps exactly the rows that pass, in their order (it equals `Filter` by the one test) |
| TableView.ApplyFilters | frontend/src/hooks/useTable.js:67-78 | the rows kept are exactly those every active filter admits, in their order (it equals `Filter` by the conjunction of the active filters); the result is an error only if some row throws, and always is when one does |
| TableView.ShiftFilters | frontend/src/hooks/useTable.js:67-69 | a falsy filter value leaves the result to the remaining filters |
| TableView.NarrowFilters | frontend/src/hooks/useTable.js:69-77 | an active filter narrows the rows the remaining filters see |
| TableView.AdmitsAllShift | frontend/src/hooks/useTable.js:67-69 | dropping an inactive first filter keeps the same rows |
| TableView.AdmitsAllNarrow | frontend/src/hooks/useTable.js:69-77 | filtering by the first active filter and then by the rest keeps exactly the rows every filter admits |
| TableView.Compare | frontend/src/hooks/useTable.js:82-90 | the comparator is 0 iff the values are strictly equal, -1 iff they differ and the first is less, and 1 otherwise |
| TableView.Insert | frontend/src/hooks/useTable.js:82-90 | inserting a row adds exactly that row |
| TableView.SortRows | frontend/src/hooks/useTable.js:81-91 | the sort returns a permutation of the rows |
| TableView.InsertSorted | frontend/src/hooks/useTable.js:82-90 | with a consistent comparator, insertion keeps rows in order |
| TableView.SortRowsSorted | frontend/src/hooks/useTable.js:81-91 | with a consistent comparator, the sorted rows are in comparator order |
| TableView.EarlierOnNumbers | frontend/src/hooks/useTable.js:86-89 | on number values the comparator puts smaller first, or larger first when descending |
| TableView.EarlierOnStrings | frontend/src/hooks/useTable.js:86-89 | on string values the comparator follows string order, reversed when descending |
| TableView.NumbersSortByValue | frontend/src/hooks/useTable.js:81-91 | when every sort value is a number the rows come out in numeric order, ascending or descending |
| TableView.StringsSortByValue | frontend/src/hooks/useTable.js:81-91 | when every sort value is a string the rows come out in string order, ascending or descending |
| TableView.Processed | frontend/src/hooks/useTable.js:63-94 | processedData is an error iff filtering throws; otherwise it is a permutation of the admitted rows in data order, and equal to them when no sort field is set |
| TableView.PageView | frontend/src/hooks/useTable.js:97-100 | the page holds at most rowsPerPage rows, exactly the rows from page * rowsPerPage on, and is empty past the end |
| TableView.TotalPages | frontend/src/hooks/useTable.js:103-105 | totalPages is the ceiling of the row count over the page size |
| TableView.PageNonEmptyIffInRange | frontend/src/hooks/useTable.js:97-105 | a page shows rows iff it is below totalPages |
| TableView.EveryRowOnItsPage | frontend/src/hooks/useTable.js:97-100 | row i appears on page i / rowsPerPage and only there |
| TableView.ClampedPage | frontend/src/hooks/useTable.js:108-112 | a page past the end becomes the last page, or 0 when there are none; any other page stays |
| TableView.ClampedPageShowsRows | frontend/src/hooks/useTable.js:108-112 | after the reset a non-empty table shows a non-empty page |
| TableView.NextSort | frontend/src/hooks/useTable.js:19-26 | the field is the one clicked, and the direction is desc iff the same field was sorted ascending |
| TableView.SortClicksAlternate | frontend/src/hooks/useTable.js:19-26 | clicking the same column again always flips the direction, and a new column starts ascending |
| TableView.Lookup | frontend/src/hooks/useTable.js:68 | a key's value is the entry holding it, or none when no entry has it |
| TableView.LookupDistinct | frontend/src/hooks/useTable.js:68 | among distinct keys the lookup finds the one entry holding the key |
| TableView.SetFilter | frontend/src/hooks/useTable.js:32-35 | the spread adds one entry for a new key and keeps the length for a known one |
| TableView.SetFilterLookup | frontend/src/hooks/useTable.js:32-35 | after the spread the key has the new value, other keys keep theirs, and keys stay distinct |
| TableView.Toggle | frontend/src/hooks/useTable.js:40-46 | the id is selected afterwards iff it was not before; other ids are untouched |
| TableView.ToggleKeepsDistinct | frontend/src/hooks/useTable.js:40-46 | toggling never makes an id appear twice |
| TableView.ToggleTwice | frontend/src/hooks/useTable.js:40-46 | toggling twice selects the same ids, and restores the list exactly when the id was not selected |
| TableView.AppendThenRemove | frontend/src/hooks/useTable.js:43-44 | filtering out an id just appended restores the list |
| TableView.SelectAll | frontend/src/hooks/useTable.js:48-50 | checked selects every row's id, in order; unchecked selects nothing |
| TableView.Table.constructor | frontend/src/hooks/useTable.js:3-16 | the state starts from the options: page, page size, sort and filters, with nothing selected |
| TableView.Table.HandleSort | frontend/src/hooks/useTable.js:19-28 | the sort becomes NextSort and the page 0 |
| TableView.Table.HandleFilter | frontend/src/hooks/useTable.js:31-37 | the filter is set and the page becomes 0 |
| TableView.Table.HandleSelect | frontend/src/hooks/useTable.js:40-46 | the selection is toggled |
| TableView.Table.HandleSelectAll | frontend/src/hooks/useTable.js:48-50 | the selection becomes SelectAll of the rows given |
| TableView.Table.HandleChangePage | frontend/src/hooks/useTable.js:53-55 | only the page changes |
| TableView.Table.HandleChangeRowsPerPage | frontend/src/hooks/useTable.js:57-60 | the page size changes and the page becomes 0 |
| TableView.Table.ClampPage | frontend/src/hooks/useTable.js:108-112 | the page becomes ClampedPage for the row count |
| TableView.Table.ResetSort | frontend/src/hooks/useTable.js:141 | only the sort returns to its initial value |
| TableView.Table.ResetFilters | frontend/src/hooks/useTable.js:142 | only the filters return to their initial value |
| TableView.Table.ResetPagination | frontend/src/hooks/useTable.js:143-146 | the page and page size return to their initial values |
| TableView.Table.ResetSelection | frontend/src/hooks/useTable.js:147 | the selection empties |
| TableView.Table.ResetAll | frontend/src/hooks/useTable.js:148-154 | the state the hook started in |
| Helpers.ColourAsWritten | frontend/src/utils/helpers.js:21-43 | the lookup as written yields an inherited prototype member exactly when the lower-cased name is not an own key but is one of the prototype's lower-case names; otherwise it yields the corrected colour |
| Helpers.ConstructorStatusHasNoColour | frontend/src/utils/helpers.js:32 | any status spelling "constructor" in some case gets the inherited constructor back instead of a colour |
| Helpers.ProtoPriorityHasNoColour | frontend/src/utils/helpers.js:42 | the priority "__proto__" gets the inherited prototype back instead of a colour |
| Helpers.Colour | frontend/src/utils/helpers.js:32 | the colour is the table's entry for the lower-cased name, or "default" when it has none |
| Helpers.StatusColor | frontend/src/utils/helpers.js:21-33 | a status colour is one of success, error, warning, info or default, and is default iff the lower-cased status is not a known status |
| Helpers.PriorityColor | frontend/src/utils/helpers.js:36-43 | a priority colour is one of error, warning, success or default, and is default iff the lower-cased priority is not high, medium or low |
| Helpers.ColourIgnoresCase | frontend/src/utils/helpers.js:32 | upper- or lower-casing the name does not change its colour |
| Helpers.LowerAllOfLower | frontend/src/utils/helpers.js:32 | lower-casing a string with no upper-case letter leaves it unchanged |
| Helpers.EmailMatchesPattern | frontend/src/utils/helpers.js:68-71 | the character-level reading of isValidEmail accepts exactly the strings the regular expression matches |
| Helpers.ValidEmailMatches | frontend/src/utils/helpers.js:68-71 | a string with one '@' after a non-empty local part, a '.' after a non-empty host, a non-empty ending and no whitespace matches the regular expression |
| Helpers.MatchIsValidEmail | frontend/src/utils/helpers.js:68-71 | a string the regular expression matches has exactly one '@', a later '.', non-empty parts and no whitespace |
| Helpers.PhoneNumberLength | frontend/src/utils/helpers.js:73-76 | a valid phone number is ten characters in the 0 form and twelve starting "+27" in the international form, and ends in nine digits |
| Helpers.PrefixesAreInterchangeable | frontend/src/utils/helpers.js:73-76 | a subscriber number is valid after "+27" iff it is valid after "0", and iff it is nine digits not starting with 0 |
| Helpers.VehicleNumber | frontend/src/utils/helpers.js:78-81 | every fleet number below 1000, zero-padded to three digits after "MWV-", passes isValidVehicleNumber |
| Helpers.FleetNumber | frontend/src/utils/helpers.js:78-81 | the number a valid vehicle number carries is below 1000 |
| Helpers.VehicleNumberRoundTrip | frontend/src/utils/helpers.js:78-81 | reading back the number written for n gives n |
| Helpers.ValidVehicleNumberIsWritten | frontend/src/utils/helpers.js:78-81 | every valid vehicle number is the one written for the number it carries |
| Helpers.DigitsInjective | frontend/src/utils/helpers.js:79 | two digit strings of one length with the same value are equal |
| Helpers.ErrorMessage | frontend/src/utils/helpers.js:84-89 | a string error is its own message; otherwise the server's message wins, then the error's own, then the fixed fallback, always a truthy value; a null or undefined error throws |
| Helpers.FallbackOnlyWithoutMessages | frontend/src/utils/helpers.js:88 | the fallback text is returned when neither the response nor the error carries a message |
| Helpers.StringMessageIsFinal | frontend/src/utils/helpers.js:85 | picking the message of a picked string message changes nothing |
| Helpers.ServerMessageWins | frontend/src/utils/helpers.js:86 | a non-empty server message is chosen over the error's own message |
| Helpers.Members | frontend/src/utils/helpers.js:114-116 | a key's group holds no more items than the array |
| Helpers.MembersOfAbsentKey | frontend/src/utils/helpers.js:115 | a key no item carries has an empty group |
| Helpers.MembersAppend | frontend/src/utils/helpers.js:114-116 | the group of a concatenation is the concatenation of the groups, in order |
| Helpers.GroupsPartition | frontend/src/utils/helpers.js:113-118 | when the keys listed are distinct and cover every item, the groups' sizes add up to the number of items |
| Helpers.NoItemsNoGroups | frontend/src/utils/helpers.js:113-118 | an empty array gives empty groups |
| Helpers.GroupSizesStep | frontend/src/utils/helpers.js:115 | one more item adds one to the group sizes iff its key is listed |
| Helpers.GroupedStep | frontend/src/utils/helpers.js:114-116 | pushing item i onto its key's group extends the grouping of the first i items to the first i + 1 |
| Helpers.GroupBy | frontend/src/utils/helpers.js:113-118 | groupBy throws iff some item's key, as written and not lower-cased, names one of the twelve members of Object.prototype (`constructor`, `__proto__`, `toString`, `valueOf`, `hasOwnProperty`, …); otherwise its keys are exactly the items' keys and each group is exactly the items with that key, in array order |
| Helpers.NotAfterChains | frontend/src/utils/helpers.js:121-126 | on keys of one kind that are distinct, the comparator's "not after" is transitive |
| Helpers.NotAfterIsAtMost | frontend/src/utils/helpers.js:121-126 | "not after" under the comparator means the key is no later in the requested direction |
| Helpers.SwapPermutes | frontend/src/utils/helpers.js:121 | swapping two neighbours permutes the copy |
| Helpers.SwapKeepsOrder | frontend/src/utils/helpers.js:121-126 | swapping an out-of-order pair moves the sorted boundary one place |
| Helpers.InsertionDone | frontend/src/utils/helpers.js:121-126 | once an item stops moving the prefix through it is in order |
| Helpers.InOrderIsKeyOrder | frontend/src/utils/helpers.js:121-126 | a copy in comparator order has its keys in the requested order |
| Helpers.SortBy | frontend/src/utils/helpers.js:120-127 | sortBy returns a new array that is a permutation of the input, and in key order, ascending or descending, when the keys are distinct and of one kind |
| StaffPage.StatusColor | frontend/src/pages/StaffManagement.jsx:83-94 | a staff status colour is success, warning, error or default, and is default iff the lower-cased status is not active, on leave or inactive |
| StaffPage.StatusColorIgnoresCase | frontend/src/pages/StaffManagement.jsx:84 | upper- or lower-casing the status does not change its colour |
| StaffPage.FormatNameByCharacter | frontend/src/pages/StaffManagement.jsx:96-101 | the formatted name is as long as the name, has its spaces in the same places, a capital at the start of each word and small letters elsewhere |
| StaffPage.FormatNameIdempotent | frontend/src/pages/StaffManagement.jsx:96-101 | formatting a formatted name changes nothing |
| StaffPage.AddDisabled | frontend/src/pages/StaffManagement.jsx:281 | the add button is disabled iff name, role, email or phone is empty |
| StaffPage.BlankFormCannotBeAdded | frontend/src/pages/StaffManagement.jsx:59-68 | the blank form the dialog opens with, and is reset to, cannot be submitted |
| StaffPage.OptionalFieldsDoNotMatter | frontend/src/pages/StaffManagement.jsx:281 | address, id number and licence fields never enable or disable the button |
| ContainersPage.StatusColor | frontend/src/pages/Containers.js:131-148 | a container status colour is one of six chip colours, and is default iff the status is not available, in_use, maintenance, cleaning or damaged |
| ContainersPage.StatusColorsDistinguish | frontend/src/pages/Containers.js:131-148 | two different statuses with a colour other than default never share a colour |
| ContainersPage.StatusLabelByCharacter | frontend/src/pages/Containers.js:150-154 | the label is as long as the status, each '_' becomes a space, each part's first character is capitalised, the rest is kept, and no '_' remains |
| ContainersPage.StatusLabelIdempotent | frontend/src/pages/Containers.js:150-154 | labelling a label changes nothing |
| ContainersPage.Page.constructor | frontend/src/pages/Containers.js:54-56 | the page starts with 10 rows per page, no search text and no status filter |
| ContainersPage.Page.ChangePage | frontend/src/pages/Containers.js:76-78 | the store's page becomes the table's page plus one, and the table is shown that page back |
| ContainersPage.Page.ChangeRowsPerPage | frontend/src/pages/Containers.js:80-83 | the page size becomes parseInt of the chosen value and the store goes back to page 1, which the next fetch asks for |
| ContainersPage.Page.SearchChange | frontend/src/pages/Containers.js:85-88 | the search text is set and the store goes back to page 1, which the next fetch asks for |
| ContainersPage.Page.StatusFilterChange | frontend/src/pages/Containers.js:90-93 | the status filter is set and the store goes back to page 1, which the next fetch asks for |
| Words.MapChars | frontend/src/pages/StaffManagement.jsx:99 | each character of the result is the mapped character at the same place |
| Words.MapWords | frontend/src/pages/StaffManagement.jsx:98-100 | each word of the result is the recased word at the same place |
| Words.Scan | frontend/src/pages/Containers.js:150-154 | the character-at-a-time rewrite keeps the length and maps separators, word starts and other characters as the word-wise rewrite does |
| Words.JoinFront | frontend/src/pages/Containers.js:153 | joining a word in front of a list puts the separator between them only when the list is non-empty |
| Words.SeparatorStep | frontend/src/pages/StaffManagement.jsx:98 | a leading separator starts an empty word and keeps the word-wise and character-wise rewrites equal |
| Words.LetterStep | frontend/src/pages/StaffManagement.jsx:98-100 | a leading letter joins the first word and keeps the two rewrites equal |
| Words.LetterJoins | frontend/src/pages/StaffManagement.jsx:99 | a character in front of the first word puts its image in front of the joined result |
| Words.RewriteIsScan | frontend/src/pages/StaffManagement.jsx:96-101 | split, recase each word and join equals the character-at-a-time rewrite |
| Arith.CeilDiv | backend/models/vehicle.js:211 | Math.ceil of a quotient: the least whole number of divisors that reaches the dividend, for either sign of divisor |
| Text.NatToString | backend/src/models/incident.js:82-83 | a number's decimal text is at least one digit, and a single digit exactly below ten |
| Text.PadStart | backend/src/models/incident.js:82-83 | padStart keeps the string as its suffix, reaches the width, and fills only the front with the fill character |
| Text.JoinSplit | frontend/src/pages/StaffManagement.jsx:97-100 | joining the pieces of a split with the same separator gives the string back, so the word-wise rewrites lose no separator |
| Js.ParseInt | backend/controllers/deliveryController.js:13-14 | parseInt is NaN exactly when no digit follows the optional sign |
| Js.ParseIntOfNatToString | backend/controllers/deliveryController.js:13-14 | parseInt of a number's decimal text, followed by anything not a digit, reads the number back |
| Calendar.AddMonths | backend/controllers/vehicleController.js:297-298 | setMonth keeps the day when the target month has it and otherwise rolls the excess days into the next month |
| Calendar.AddMonthsDayNumber | backend/controllers/vehicleController.js:297-298 | the day reached is the target month's first day plus the original day less one |
| Calendar.AddThreeMonthsSpan | backend/controllers/vehicleController.js:298 | three months on is between 89 and 92 days later |
| Calendar.AddMonthsTo | backend/controllers/vehicleController.js:297-298 | moving a date by months keeps its time of day |
| Calendar.AddThreeMonthsMillis | backend/controllers/vehicleController.js:297-298 | the next service falls between 89 and 92 whole days after the maintenance date |

## Left out

- I/O is not modelled. The clock (`new Date()`, `Date.now()`), `Math.random()`, the request user and the current year are parameters of the operations that read them.
- The database is an in-memory map keyed by id. Population and joins are not modelled, and neither are ORM query construction, Mongoose and Sequelize schema validation, the ObjectId format check or the error middleware.
- Authentication, authorisation, Express routing and the servers are not modelled.
- Network calls are not modelled. The async thunks of the client are represented only by the payloads their fulfilled and rejected actions carry.
- Concurrency and atomicity across requests are not modelled. Each handler is one sequential step. The transaction around re-sequencing is modelled as all-or-nothing by returning the store unchanged on failure.
- The PDF manifest is left out: the controller's generator (`backend/controllers/deliveryController.js:283-345`) and the manifest route (`backend/src/routes/delivery.routes.js:170-196`). They are document writing over a library.
- The list GET routes and filtered queries are left out. Only the pagination arithmetic of `getDeliveries` is modelled.
- File storage is left out: `addDocument`, and the upload and unlink calls of `deleteDocument` and `deleteVehicle`. Only the list operation of `deleteDocument` is modelled.
- React rendering, the dialogs, the form libraries and the remaining pages are left out. Also left out are the `useForm` and `useNotification` hooks, the UI, settings, auth and waste-collection slices, and the floating-point and locale formatters of the helpers.
- DeliveryController.ApplyPatch: a status outside the six the schema lists is not modelled. `$set` runs no validators, so the source stores such a string, while the model's status is always one of the six. Body fields the schema does not have are not modelled either.
- DeliveryController.DeliveryStore.UpdateDelivery: stores `ApplyPatch`, so it leaves out the same cases: a status string outside the schema's six and fields outside the schema.
- VehicleController.Created: the body's `incidents`, `documents` and `maintenanceHistory` arrays are not modelled, so a new vehicle's embedded lists start empty. `new Vehicle(req.body)` keeps such arrays, which would also bypass the model's invariant that embedded ids are fresh and unique.
- VehicleController.VehicleStore.CreateVehicle: stores `Created`, so body-supplied embedded lists are left out for the same reason.
- VehicleController.ApplyVehiclePatch: the patch cannot carry `incidents`, `documents` or `maintenanceHistory`. `$set: req.body` can overwrite those lists, which is not modelled, for the same reason as for Created.
- VehicleController.VehicleStore.UpdateVehicle: stores `ApplyVehiclePatch`, so overwriting the embedded lists is left out as well.
- DeliveryRoutes.DeliveryTable.UpdateStatus: a body whose `status` is `null` is not modelled. The column allows null, so the source would store a row with no status; the model's status is absent (kept) or a string.
- VehicleController.VehicleStore.UpdateVehicle: the uniqueness query's `_id: {$ne: id}` is modelled as excluding the vehicle itself. The case of a missing or malformed id is not modelled.
- Js.ParseInt: reads only an optional sign and decimal digits. Leading white space, hexadecimal prefixes and exponent forms are not modelled.
- Js.ToNumber: a string converts only when it is empty or an optional '-' followed by decimal digits. Other numeric strings, such as decimals, exponents or padded text, are treated as NaN. An array converts through its one element (or to 0 when empty), as its string form would; an object converts to NaN, since its string form is `[object Object]`.
- Text.LowerAll and Text.UpperAll: ASCII letters only. The Unicode case mapping of `toLowerCase` and `toUpperCase` is not modelled. So formatName and getStatusLabel are proved for ASCII input.
- Calendar.AddMonths: works on UTC civil dates. Time zones and daylight saving are not modelled.
- JavaScript numbers are real numbers, so floating-point rounding is not modelled. Sums of costs are exact.
- Js.ValueLess: two strings compare by code point, because a string here is a sequence of Unicode scalar values. JavaScript compares UTF-16 code units, which orders characters above U+FFFF before those from U+E000 to U+FFFF; that difference is not modelled. Anything else compares by Number conversion. When neither operand is a string but at least one is an array or object, JavaScript first converts each such operand to its string form, and then compares two strings by code unit; the model converts every non-string operand to a number. So two arrays compare by their string forms in JavaScript (`[5] < [10]` is false, because "5" follows "10") and by their numbers here (true). An array or object compared with a string is likewise converted to a number here, while JavaScript compares the two string forms.
- TableView.SortRows and Helpers.SortBy: the engine's sort algorithm is replaced by an insertion sort with the same comparator. When the comparator is inconsistent, the order the engine would produce is not modelled. Only the permutation is stated.
- Helpers.GroupBy: groups are keyed by the JavaScript value itself, not by its string form as an object key. Values with the same `String()` form, such as 1 and "1", therefore stay in separate groups.
- TableView.Table.HandleSelectAll: the handler reads `processedData` from the render it was created in. The model takes the rows as an argument, so the stale closure is not modelled.
- TableView.Table.HandleChangeRowsPerPage: the page size is kept positive. A NaN or zero page size from the select is not modelled.
- TableView.Passes: a filter value that is not a string is compared with the row's value by contents. `itemValue === filterValue` compares objects and arrays by identity, so the source rejects a row holding an equal but distinct object or array, which the model admits. Object identity is not modelled.
- TableView.Compare: two objects or arrays with equal contents compare as 0. `aValue === bValue` is false for distinct objects, so the source goes on to compare them with `<`. Object identity is not modelled. It also inherits the `Js.ValueLess` gap: two arrays or objects are ordered by their Number conversions, where `aValue < bValue` in the source compares their string forms, so a column holding `[5]` and `[10]` sorts the other way round.
- Js.Value: `==` on values compares arrays and objects by contents, while `===` compares them by identity. Besides TableView.Passes and TableView.Compare, this affects the id matches of the reducers (`Lists.FindIndex`, `Lists.RemoveAll`, `Lists.ReplaceFirst`, `VehicleSlice.Synced`), which agree with `===` whenever the ids are numbers, strings, null or undefined, as the servers send them.
- DeliveryRoutes.WithStatus: a supplied completedDate is a millisecond count, of which only 0 is falsy. Other falsy body values, such as an empty string or `false`, are not modelled; a missing or null date is None.
- DeliveryStatusDialog.SortBySteps: options with equal steps come out in reverse order, while `Array.prototype.sort` is stable. The table's steps are distinct, so the stepper's labels are unaffected.
- TableView.ApplyFilters: filters are an ordered list of distinct keys. The `Object.keys` order of a JavaScript object is not modelled beyond that.
- StaffPage and Helpers: the colour lookups throw on a status that is not a string, and that path is not modelled. Their inputs are strings.
- The counter drift of `deleteStaffMember`, `deleteMaintenanceTask` and `deleteIncident` under repeated ids is stated as a lemma (`StaffSlice.RepeatedIdBreaksCounters`) rather than excluded. The counter invariants assume distinct ids.

## Findings

| source | as written | input that shows it | evidently intended | confidence | as-written member | corrected member |
|---|---|---|---|---|---|---|
| backend/src/routes/delivery.routes.js:154 | the re-sequencing route opens `sequelize.transaction()`, but `sequelize` is never imported in that file (lines 1-5), so every call throws a ReferenceError and answers 500 | any request body, for example `{"deliveries": [{"id": 1, "sequence": 2}]}` | each listed delivery gets its sequence, inside one transaction | high (not executed) | DeliveryRoutes.SequenceRouteAlwaysFails | DeliveryRoutes.DeliveryTable.Resequence |
| frontend/src/utils/helpers.js:32 | the colour lookup indexes an object literal with the lower-cased name, so it also finds members inherited from `Object.prototype`, which are truthy and come back instead of a colour | `getStatusColor("Constructor")` yields the `Object` constructor, and `getPriorityColor("__proto__")` yields `Object.prototype` | names outside the table give "default" | high (not executed) | Helpers.ConstructorStatusHasNoColour | Helpers.StatusColor |
