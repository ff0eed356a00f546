/**
 * The request validators of the MongoDB backend. Each walks its required
 * fields, then runs its range, enum and date checks, pushing one message
 * per failed check onto an error list. The request body is a plain JSON
 * object; the current year and the test "new Date(v) is a valid date" are
 * parameters.
 */
module Validation {
  import opened Outcome
  import opened Text
  import opened Js

  const VehicleRequired: seq<string> :=
    ["registrationNumber", "make", "model", "year", "vin", "fuelType", "lastService", "nextServiceDue",
     "insuranceNumber", "insuranceExpiry"]
  const IncidentRequired: seq<string> := ["type", "date", "location", "description", "driverName"]
  const MaintenanceRequired: seq<string> := ["type", "date", "mileage", "description", "cost"]

  const FuelTypes: seq<string> := ["petrol", "diesel", "electric", "hybrid"]
  const IncidentTypes: seq<string> := ["accident", "breakdown", "maintenance", "damage", "other"]
  const IncidentStatuses: seq<string> := ["open", "in_progress", "resolved", "closed"]
  const MaintenanceTypes: seq<string> := ["routine", "repair", "inspection", "tire", "other"]

  const RequiredSuffix := " is required"

  function RequiredMessage(field: string): (m: string)
    ensures |m| == |field| + 12 && m[|field|..] == RequiredSuffix && m[..|field|] == field
  {
    field + RequiredSuffix
  }

  /** `allowed.includes(v)`: strict equality, so only a string can match. */
  predicate OneOf(v: Value, allowed: seq<string>) {
    v.Str? && v.s in allowed
  }

  /** `v && (isNaN(v) || v < 0)`: a present value that is not a non-negative number. */
  predicate BadAmount(v: Value) {
    Truthy(v) && (IsNaN(v) || LessThan(v, 0.0))
  }

  /** `v && !allowed.includes(v)`. */
  predicate BadChoice(v: Value, allowed: seq<string>) {
    Truthy(v) && !OneOf(v, allowed)
  }

  /** `date && isNaN(new Date(date).getTime())`, with the date test as a parameter. */
  predicate BadDate(v: Value, isDate: Value -> bool) {
    Truthy(v) && !isDate(v)
  }

  /** The required-field messages: one per falsy field, in list order. */
  function MissingFields(fields: seq<string>, data: Object): (r: seq<string>)
    ensures |r| <= |fields|
    ensures forall k :: 0 <= k < |r| ==> |r[k]| >= 12 && r[k][|r[k]| - 12..] == RequiredSuffix
    decreases |fields|
  {
    if fields == [] then []
    else
      var last := fields[|fields| - 1];
      MissingFields(fields[..|fields| - 1], data) + (if Truthy(Get(data, last)) then [] else [RequiredMessage(last)])
  }

  /** No required message is empty exactly when every required field is truthy. */
  lemma {:induction false} MissingFieldsEmpty(fields: seq<string>, data: Object)
    ensures MissingFields(fields, data) == [] <==> forall k :: 0 <= k < |fields| ==> Truthy(Get(data, fields[k]))
    decreases |fields|
  {
    if fields != [] {
      MissingFieldsEmpty(fields[..|fields| - 1], data);
    }
  }

  lemma RequiredMessageInjective(a: string, b: string)
    requires RequiredMessage(a) == RequiredMessage(b)
    ensures a == b
  {
    assert |a| == |b|;
    assert a == RequiredMessage(a)[..|a|];
  }

  /** A listed field is reported as required exactly when it is falsy. */
  lemma {:induction false} MissingFieldsReports(fields: seq<string>, data: Object, f: string)
    requires f in fields
    ensures RequiredMessage(f) in MissingFields(fields, data) <==> !Truthy(Get(data, f))
    decreases |fields|
  {
    var init, last := fields[..|fields| - 1], fields[|fields| - 1];
    assert fields == init + [last];
    if f in init {
      MissingFieldsReports(init, data, f);
    }
    if RequiredMessage(f) in MissingFields(fields, data) && !(RequiredMessage(f) in MissingFields(init, data)) {
      RequiredMessageInjective(f, last);
    }
    if f !in init {
      assert f == last;
      if RequiredMessage(f) in MissingFields(init, data) {
        MissingFieldsWhere(init, data, RequiredMessage(f));
      }
    }
  }

  /** Every required message names a listed field that is falsy. */
  lemma {:induction false} MissingFieldsWhere(fields: seq<string>, data: Object, m: string)
    requires m in MissingFields(fields, data)
    ensures exists k :: 0 <= k < |fields| && m == RequiredMessage(fields[k]) && !Truthy(Get(data, fields[k]))
    decreases |fields|
  {
    var init, last := fields[..|fields| - 1], fields[|fields| - 1];
    if m in MissingFields(init, data) {
      MissingFieldsWhere(init, data, m);
      var k :| 0 <= k < |init| && m == RequiredMessage(init[k]) && !Truthy(Get(data, init[k]));
      assert fields[k] == init[k];
    } else {
      assert m == RequiredMessage(fields[|fields| - 1]);
    }
  }

  /** The required-fields loop that opens each validator. */
  method CheckRequired(fields: seq<string>, data: Object) returns (errors: seq<string>)
    ensures errors == MissingFields(fields, data)
  {
    errors := [];
    for i := 0 to |fields|
      invariant errors == MissingFields(fields[..i], data)
    {
      assert fields[..i + 1][..i] == fields[..i];
      if !Truthy(Get(data, fields[i])) {
        errors := errors + [RequiredMessage(fields[i])];
      }
    }
    assert fields[..|fields|] == fields;
  }

  function Flag(failed: bool, message: string): (r: seq<string>)
    ensures message in r <==> failed
    ensures |r| <= 1
  {
    if failed then [message] else []
  }

  /** The year check: a present year before 1900 or after next year. */
  predicate BadYear(year: Value, currentYear: int) {
    Truthy(year) && (LessThan(year, 1900.0) || GreaterThan(year, (currentYear + 1) as real))
  }

  /** The messages validateVehicleData returns, in the order it pushes them. */
  function VehicleErrors(data: Object, currentYear: int, isDate: Value -> bool): seq<string> {
    MissingFields(VehicleRequired, data)
    + Flag(BadYear(Get(data, "year"), currentYear), "Invalid year")
    + Flag(BadDate(Get(data, "lastService"), isDate), "Invalid lastService")
    + Flag(BadDate(Get(data, "nextServiceDue"), isDate), "Invalid nextServiceDue")
    + Flag(BadDate(Get(data, "insuranceExpiry"), isDate), "Invalid insuranceExpiry")
    + Flag(BadChoice(Get(data, "fuelType"), FuelTypes), "Invalid fuel type")
    + Flag(BadAmount(Get(data, "mileage")), "Invalid mileage")
  }

  method ValidateVehicleData(data: Object, currentYear: int, isDate: Value -> bool) returns (errors: seq<string>)
    ensures errors == VehicleErrors(data, currentYear, isDate)
  {
    errors := CheckRequired(VehicleRequired, data);
    ghost var e1 := errors;
    if BadYear(Get(data, "year"), currentYear) {
      errors := errors + ["Invalid year"];
    }
    assert errors == e1 + Flag(BadYear(Get(data, "year"), currentYear), "Invalid year");
    ghost var e2 := errors;
    if BadDate(Get(data, "lastService"), isDate) {
      errors := errors + ["Invalid lastService"];
    }
    assert errors == e2 + Flag(BadDate(Get(data, "lastService"), isDate), "Invalid lastService");
    ghost var e3 := errors;
    if BadDate(Get(data, "nextServiceDue"), isDate) {
      errors := errors + ["Invalid nextServiceDue"];
    }
    assert errors == e3 + Flag(BadDate(Get(data, "nextServiceDue"), isDate), "Invalid nextServiceDue");
    ghost var e4 := errors;
    if BadDate(Get(data, "insuranceExpiry"), isDate) {
      errors := errors + ["Invalid insuranceExpiry"];
    }
    assert errors == e4 + Flag(BadDate(Get(data, "insuranceExpiry"), isDate), "Invalid insuranceExpiry");
    ghost var e5 := errors;
    if BadChoice(Get(data, "fuelType"), FuelTypes) {
      errors := errors + ["Invalid fuel type"];
    }
    assert errors == e5 + Flag(BadChoice(Get(data, "fuelType"), FuelTypes), "Invalid fuel type");
    ghost var e6 := errors;
    if BadAmount(Get(data, "mileage")) {
      errors := errors + ["Invalid mileage"];
    }
    assert errors == e6 + Flag(BadAmount(Get(data, "mileage")), "Invalid mileage");
  }

  /** The vehicle validator returns no message exactly when every check passes. */
  lemma VehicleErrorsEmpty(data: Object, currentYear: int, isDate: Value -> bool)
    ensures VehicleErrors(data, currentYear, isDate) == [] <==>
      ((forall k :: 0 <= k < |VehicleRequired| ==> Truthy(Get(data, VehicleRequired[k]))) &&
       !BadYear(Get(data, "year"), currentYear) &&
       !BadDate(Get(data, "lastService"), isDate) && !BadDate(Get(data, "nextServiceDue"), isDate) &&
       !BadDate(Get(data, "insuranceExpiry"), isDate) &&
       !BadChoice(Get(data, "fuelType"), FuelTypes) && !BadAmount(Get(data, "mileage")))
  {
    MissingFieldsEmpty(VehicleRequired, data);
  }

  /** A falsy year is reported as missing and never as out of range. */
  lemma FalsyYearOnlyRequired(data: Object, currentYear: int, isDate: Value -> bool)
    requires !Truthy(Get(data, "year"))
    ensures RequiredMessage("year") in VehicleErrors(data, currentYear, isDate)
    ensures "Invalid year" !in VehicleErrors(data, currentYear, isDate)
  {
    MissingFieldsReports(VehicleRequired, data, "year");
    NotARequiredMessage(VehicleRequired, data, "Invalid year");
  }

  /** A message that does not end in " is required" is not among the required-field messages. */
  lemma NotARequiredMessage(fields: seq<string>, data: Object, m: string)
    requires |m| < 12 || m[|m| - 12..] != RequiredSuffix
    ensures m !in MissingFields(fields, data)
  {
  }

  /** A fuel type is reported exactly when it is present and not one of the four. */
  lemma FuelTypeReported(data: Object, currentYear: int, isDate: Value -> bool)
    ensures "Invalid fuel type" in VehicleErrors(data, currentYear, isDate) <==>
      BadChoice(Get(data, "fuelType"), FuelTypes)
  {
    NotARequiredMessage(VehicleRequired, data, "Invalid fuel type");
  }

  /** A mileage that reads as zero is never reported; a negative one always is. */
  lemma MileageReported(data: Object, currentYear: int, isDate: Value -> bool)
    ensures ToNumber(Get(data, "mileage")) == Some(0.0) ==> "Invalid mileage" !in VehicleErrors(data, currentYear, isDate)
    ensures Get(data, "mileage").Num? && Get(data, "mileage").n < 0.0 ==>
      "Invalid mileage" in VehicleErrors(data, currentYear, isDate)
  {
    NotARequiredMessage(VehicleRequired, data, "Invalid mileage");
  }

  /** The messages validateIncidentData returns, in the order it pushes them. */
  function IncidentErrors(data: Object, isDate: Value -> bool): seq<string> {
    MissingFields(IncidentRequired, data)
    + Flag(BadChoice(Get(data, "type"), IncidentTypes), "Invalid incident type")
    + Flag(BadDate(Get(data, "date"), isDate), "Invalid date")
    + Flag(BadAmount(Get(data, "cost")), "Invalid cost")
    + Flag(BadChoice(Get(data, "status"), IncidentStatuses), "Invalid status")
  }

  method ValidateIncidentData(data: Object, isDate: Value -> bool) returns (errors: seq<string>)
    ensures errors == IncidentErrors(data, isDate)
  {
    errors := CheckRequired(IncidentRequired, data);
    ghost var e1 := errors;
    if BadChoice(Get(data, "type"), IncidentTypes) {
      errors := errors + ["Invalid incident type"];
    }
    assert errors == e1 + Flag(BadChoice(Get(data, "type"), IncidentTypes), "Invalid incident type");
    ghost var e2 := errors;
    if BadDate(Get(data, "date"), isDate) {
      errors := errors + ["Invalid date"];
    }
    assert errors == e2 + Flag(BadDate(Get(data, "date"), isDate), "Invalid date");
    ghost var e3 := errors;
    if BadAmount(Get(data, "cost")) {
      errors := errors + ["Invalid cost"];
    }
    assert errors == e3 + Flag(BadAmount(Get(data, "cost")), "Invalid cost");
    ghost var e4 := errors;
    if BadChoice(Get(data, "status"), IncidentStatuses) {
      errors := errors + ["Invalid status"];
    }
    assert errors == e4 + Flag(BadChoice(Get(data, "status"), IncidentStatuses), "Invalid status");
  }

  /** Each incident check reports exactly its own failure. */
  lemma IncidentChecksReported(data: Object, isDate: Value -> bool)
    ensures "Invalid incident type" in IncidentErrors(data, isDate) <==> BadChoice(Get(data, "type"), IncidentTypes)
    ensures "Invalid status" in IncidentErrors(data, isDate) <==> BadChoice(Get(data, "status"), IncidentStatuses)
    ensures "Invalid cost" in IncidentErrors(data, isDate) <==> BadAmount(Get(data, "cost"))
    ensures IncidentErrors(data, isDate) == [] <==>
      ((forall k :: 0 <= k < |IncidentRequired| ==> Truthy(Get(data, IncidentRequired[k]))) &&
       !BadChoice(Get(data, "type"), IncidentTypes) && !BadDate(Get(data, "date"), isDate) &&
       !BadAmount(Get(data, "cost")) && !BadChoice(Get(data, "status"), IncidentStatuses))
  {
    NotARequiredMessage(IncidentRequired, data, "Invalid incident type");
    NotARequiredMessage(IncidentRequired, data, "Invalid status");
    NotARequiredMessage(IncidentRequired, data, "Invalid cost");
    MissingFieldsEmpty(IncidentRequired, data);
  }

  /** `part.name` and friends: a property of an object, undefined on any other non-nullish value. */
  function Prop(part: Value, key: string): Value
    requires !Nullish(part)
  {
    if part.Obj? then Get(part.fields, key) else Undefined
  }

  const NameRequiredAt := "Part name is required at index "
  const BadQuantityAt := "Invalid quantity for part at index "
  const BadCostAt := "Invalid cost for part at index "

  /** The three checks on one part; `index` is the part's position. */
  function PartErrors(part: Value, index: nat): (r: seq<string>)
    requires !Nullish(part)
    ensures |r| <= 3
  {
    var at := NatToString(index);
    Flag(!Truthy(Prop(part, "name")), NameRequiredAt + at)
    + Flag(IsNaN(Prop(part, "quantity")) || AtMost(Prop(part, "quantity"), 0.0), BadQuantityAt + at)
    + Flag(IsNaN(Prop(part, "cost")) || LessThan(Prop(part, "cost"), 0.0), BadCostAt + at)
  }

  /** Each of a part's three messages appears exactly when its check fails. */
  lemma PartErrorsReport(part: Value, index: nat)
    requires !Nullish(part)
    ensures var r, at := PartErrors(part, index), NatToString(index);
      (NameRequiredAt + at in r <==> !Truthy(Prop(part, "name"))) &&
      (BadQuantityAt + at in r <==>
        (IsNaN(Prop(part, "quantity")) || AtMost(Prop(part, "quantity"), 0.0))) &&
      (BadCostAt + at in r <==>
        (IsNaN(Prop(part, "cost")) || LessThan(Prop(part, "cost"), 0.0)))
  {
    PartMessagesDistinct(NatToString(index));
  }

  lemma PartMessagesDistinct(at: string)
    ensures NameRequiredAt + at != BadQuantityAt + at
    ensures NameRequiredAt + at != BadCostAt + at
    ensures BadQuantityAt + at != BadCostAt + at
  {
    assert (NameRequiredAt + at)[0] == NameRequiredAt[0] == 'P';
    assert (BadQuantityAt + at)[0] == BadQuantityAt[0] == 'I';
    assert (BadQuantityAt + at)[8] == BadQuantityAt[8] == 'q';
    assert (BadCostAt + at)[8] == BadCostAt[8] == 'c';
  }

  predicate Nullish(v: Value) {
    v.Null? || v.Undefined?
  }

  /** The part messages for the first n parts, none of which is null or undefined. */
  function PartsErrors(parts: seq<Value>, n: nat): seq<string>
    requires n <= |parts|
    requires forall k :: 0 <= k < n ==> !Nullish(parts[k])
  {
    if n == 0 then [] else PartsErrors(parts, n - 1) + PartErrors(parts[n - 1], n - 1)
  }

  /** What a validator call ends in: the error list, or a TypeError from reading a property of null. */
  datatype Checked = Returned(errors: seq<string>) | Threw

  /** The messages validateMaintenanceData pushes before it looks at the parts. */
  function MaintenanceFieldErrors(data: Object, isDate: Value -> bool): seq<string> {
    MissingFields(MaintenanceRequired, data)
    + Flag(BadChoice(Get(data, "type"), MaintenanceTypes), "Invalid maintenance type")
    + Flag(BadDate(Get(data, "date"), isDate), "Invalid date")
    + Flag(BadAmount(Get(data, "mileage")), "Invalid mileage")
    + Flag(BadAmount(Get(data, "cost")), "Invalid cost")
  }

  /**
   * validateMaintenanceData: reading `part.name` on a null or undefined
   * part throws, so the call fails instead of returning a list.
   */
  function MaintenanceErrors(data: Object, isDate: Value -> bool): Checked {
    var head := MaintenanceFieldErrors(data, isDate);
    var parts := Get(data, "parts");
    if !parts.Arr? then Returned(head)
    else if exists k :: 0 <= k < |parts.items| && Nullish(parts.items[k]) then Threw
    else Returned(head + PartsErrors(parts.items, |parts.items|))
  }

  method ValidateMaintenanceData(data: Object, isDate: Value -> bool) returns (r: Checked)
    ensures r == MaintenanceErrors(data, isDate)
  {
    var errors := CheckRequired(MaintenanceRequired, data);
    ghost var e1 := errors;
    if BadChoice(Get(data, "type"), MaintenanceTypes) {
      errors := errors + ["Invalid maintenance type"];
    }
    assert errors == e1 + Flag(BadChoice(Get(data, "type"), MaintenanceTypes), "Invalid maintenance type");
    ghost var e2 := errors;
    if BadDate(Get(data, "date"), isDate) {
      errors := errors + ["Invalid date"];
    }
    assert errors == e2 + Flag(BadDate(Get(data, "date"), isDate), "Invalid date");
    ghost var e3 := errors;
    if BadAmount(Get(data, "mileage")) {
      errors := errors + ["Invalid mileage"];
    }
    assert errors == e3 + Flag(BadAmount(Get(data, "mileage")), "Invalid mileage");
    ghost var e4 := errors;
    if BadAmount(Get(data, "cost")) {
      errors := errors + ["Invalid cost"];
    }
    assert errors == e4 + Flag(BadAmount(Get(data, "cost")), "Invalid cost");
    assert errors == MaintenanceFieldErrors(data, isDate);
    var parts := Get(data, "parts");
    if parts.Arr? {
      r := CheckParts(parts.items, errors);
    } else {
      r := Returned(errors);
    }
  }

  /** Appending part i's messages to those for the first i parts gives those for the first i + 1. */
  lemma PartsErrorsStep(parts: seq<Value>, i: nat, errors: seq<string>, acc: seq<string>)
    requires i < |parts| && forall k :: 0 <= k <= i ==> !Nullish(parts[k])
    requires acc == errors + PartsErrors(parts, i)
    ensures acc + PartErrors(parts[i], i) == errors + PartsErrors(parts, i + 1)
  {
    var before, step := PartsErrors(parts, i), PartErrors(parts[i], i);
    assert PartsErrors(parts, i + 1) == before + step;
    assert (errors + before) + step == errors + (before + step);
  }

  /** The `data.parts.forEach` loop, appending to the messages gathered so far. */
  method CheckParts(parts: seq<Value>, errors: seq<string>) returns (r: Checked)
    ensures (exists k :: 0 <= k < |parts| && Nullish(parts[k])) ==> r == Threw
    ensures (forall k :: 0 <= k < |parts| ==> !Nullish(parts[k])) ==> r == Returned(errors + PartsErrors(parts, |parts|))
  {
    var acc := errors;
    var i := 0;
    while i < |parts|
      invariant 0 <= i <= |parts|
      invariant forall k :: 0 <= k < i ==> !Nullish(parts[k])
      invariant acc == errors + PartsErrors(parts, i)
    {
      var part := parts[i];
      if Nullish(part) {
        return Threw;
      }
      PartsErrorsStep(parts, i, errors, acc);
      acc := acc + PartErrors(part, i);
      i := i + 1;
    }
    r := Returned(acc);
  }

  /** The call throws exactly when the parts array holds a null or undefined part. */
  lemma MaintenanceThrowsOnNullPart(data: Object, isDate: Value -> bool)
    ensures MaintenanceErrors(data, isDate).Threw? <==>
      (Get(data, "parts").Arr? && exists k :: 0 <= k < |Get(data, "parts").items| && Nullish(Get(data, "parts").items[k]))
  {
  }

  /** A part passes every check: it has a name, a positive quantity and a cost that is not negative. */
  predicate PartOk(part: Value)
    requires !Nullish(part)
  {
    Truthy(Prop(part, "name")) && !(IsNaN(Prop(part, "quantity")) || AtMost(Prop(part, "quantity"), 0.0)) &&
    !(IsNaN(Prop(part, "cost")) || LessThan(Prop(part, "cost"), 0.0))
  }

  /** One part gives no message exactly when it passes. */
  lemma PartErrorsEmpty(part: Value, index: nat)
    requires !Nullish(part)
    ensures PartErrors(part, index) == [] <==> PartOk(part)
  {
  }

  /** The first n parts give no message exactly when each of them passes. */
  lemma {:induction false} PartsErrorsEmpty(parts: seq<Value>, n: nat)
    requires n <= |parts|
    requires forall k :: 0 <= k < n ==> !Nullish(parts[k])
    ensures PartsErrors(parts, n) == [] <==> forall k :: 0 <= k < n ==> PartOk(parts[k])
    decreases n
  {
    if n > 0 {
      PartsErrorsEmpty(parts, n - 1);
      PartErrorsEmpty(parts[n - 1], n - 1);
      var before, last := PartsErrors(parts, n - 1), PartErrors(parts[n - 1], n - 1);
      assert PartsErrors(parts, n) == before + last;
      if forall k :: 0 <= k < n ==> PartOk(parts[k]) {
        assert before == [] && last == [];
      } else {
        var k :| 0 <= k < n && !PartOk(parts[k]);
        if k == n - 1 {
          assert last != [];
        } else {
          assert !(forall j :: 0 <= j < n - 1 ==> PartOk(parts[j]));
          assert before != [];
        }
      }
    }
  }

  /**
   * The maintenance validator returns an empty list exactly when every
   * field check passes and, when `parts` is an array, every part is an
   * object that passes its three checks.
   */
  lemma MaintenanceErrorsEmpty(data: Object, isDate: Value -> bool)
    ensures MaintenanceErrors(data, isDate) == Returned([]) <==>
      ((forall k :: 0 <= k < |MaintenanceRequired| ==> Truthy(Get(data, MaintenanceRequired[k]))) &&
       !BadChoice(Get(data, "type"), MaintenanceTypes) && !BadDate(Get(data, "date"), isDate) &&
       !BadAmount(Get(data, "mileage")) && !BadAmount(Get(data, "cost")) &&
       (Get(data, "parts").Arr? ==>
          forall k :: 0 <= k < |Get(data, "parts").items| ==>
            !Nullish(Get(data, "parts").items[k]) && PartOk(Get(data, "parts").items[k])))
  {
    MissingFieldsEmpty(MaintenanceRequired, data);
    var parts := Get(data, "parts");
    if parts.Arr? && forall k :: 0 <= k < |parts.items| ==> !Nullish(parts.items[k]) {
      PartsErrorsEmpty(parts.items, |parts.items|);
    }
  }

  /** Every message of an earlier part is among the messages of the first n parts. */
  lemma {:induction false} PartsErrorsInclude(parts: seq<Value>, n: nat, k: nat, m: string)
    requires k < n <= |parts|
    requires forall j :: 0 <= j < n ==> !Nullish(parts[j])
    requires m in PartErrors(parts[k], k)
    ensures m in PartsErrors(parts, n)
    decreases n
  {
    assert PartsErrors(parts, n) == PartsErrors(parts, n - 1) + PartErrors(parts[n - 1], n - 1);
    if k < n - 1 {
      PartsErrorsInclude(parts, n - 1, k, m);
    }
  }

  /** A part whose quantity is zero is reported at its own index. */
  lemma ZeroQuantityReported(data: Object, isDate: Value -> bool, k: nat)
    requires Get(data, "parts").Arr? && k < |Get(data, "parts").items|
    requires forall j :: 0 <= j < |Get(data, "parts").items| ==> !Nullish(Get(data, "parts").items[j])
    requires AtMost(Prop(Get(data, "parts").items[k], "quantity"), 0.0)
    ensures MaintenanceErrors(data, isDate).Returned?
    ensures (BadQuantityAt + NatToString(k)) in MaintenanceErrors(data, isDate).errors
  {
    var items := Get(data, "parts").items;
    PartErrorsReport(items[k], k);
    PartsErrorsInclude(items, |items|, k, BadQuantityAt + NatToString(k));
  }
}
