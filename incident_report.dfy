/**
 * The incident record of the relational backend: its closed enums, the
 * default status, and the report number the beforeCreate hook assigns.
 * The clock and Math.random() are parameters: the calendar date of
 * creation and the drawn integer floor(random * 9999).
 */
module IncidentReport {
  import opened Outcome
  import opened Text
  import opened Js

  datatype IncidentType = Accident | Theft | Damage | Maintenance | Other
  datatype Severity = Minor | Moderate | Major | Critical
  datatype Status = Reported | Investigating | Resolved | Closed

  const DefaultStatus: Status := Reported

  /** The largest value floor(Math.random() * 9999) can take. */
  const MaxDraw: nat := 9998

  /** `s.substr(-2)`: the last two characters, or all of a shorter string. */
  function LastTwo(s: string): (r: string)
    ensures |r| == if |s| >= 2 then 2 else |s|
  {
    if |s| >= 2 then s[|s| - 2..] else s
  }

  /** `INC-${year}${month}-${random}` as the hook assembles it. */
  function ReportNumber(fullYear: nat, month0: nat, draw: nat): (r: string)
    ensures |r| >= 9 && r[..4] == "INC-"
  {
    var year := LastTwo(NatToString(fullYear));
    var month := PadStart(NatToString(month0 + 1), 2, '0');
    var random := PadStart(NatToString(draw), 4, '0');
    "INC-" + year + month + "-" + random
  }

  /** Reads a report number back as (two-digit year, month 1-12, drawn number). */
  function ParseReportNumber(s: string): Option<(nat, nat, nat)> {
    if |s| == 13 && s[..4] == "INC-" && s[8] == '-' &&
       AllDigits(s[4..6]) && AllDigits(s[6..8]) && AllDigits(s[9..])
    then Some((DigitsValue(s[4..6]), DigitsValue(s[6..8]), DigitsValue(s[9..])))
    else None
  }

  function Pow10(k: nat): (p: nat)
    ensures p >= 1
  {
    if k == 0 then 1 else 10 * Pow10(k - 1)
  }

  lemma {:induction false} NatToStringWidth(n: nat, k: nat)
    requires k >= 1 && n < Pow10(k)
    ensures |NatToString(n)| <= k
  {
    if n >= 10 {
      NatToStringWidth(n / 10, k - 1);
    }
  }

  lemma {:induction false} DigitsValueOfZeros(z: string)
    requires forall i :: 0 <= i < |z| ==> z[i] == '0'
    ensures AllDigits(z) && DigitsValue(z) == 0
  {
    if z != [] {
      DigitsValueOfZeros(z[..|z| - 1]);
    }
  }

  /** Leading zeros do not change a digit string's value. */
  lemma {:induction false} DigitsValueZeroPadded(z: string, s: string)
    requires forall i :: 0 <= i < |z| ==> z[i] == '0'
    requires AllDigits(s)
    ensures AllDigits(z + s) && DigitsValue(z + s) == DigitsValue(s)
    decreases |s|
  {
    if s == [] {
      assert z + s == z;
      DigitsValueOfZeros(z);
    } else {
      var zs := z + s;
      assert zs[..|zs| - 1] == z + s[..|s| - 1];
      DigitsValueZeroPadded(z, s[..|s| - 1]);
    }
  }

  /** padStart with '0' keeps the value of the digit string it pads. */
  lemma PaddedValue(s: string, width: nat)
    requires AllDigits(s)
    ensures var p := PadStart(s, width, '0');
      AllDigits(p) && DigitsValue(p) == DigitsValue(s)
  {
    if |s| < width {
      var z := seq(width - |s|, _ => '0');
      assert PadStart(s, width, '0') == z + s;
      DigitsValueZeroPadded(z, s);
    }
  }

  lemma TwoDigitValue(d1: nat, d0: nat)
    requires d1 < 10 && d0 < 10
    ensures AllDigits([Digit(d1), Digit(d0)]) && DigitsValue([Digit(d1), Digit(d0)]) == 10 * d1 + d0
  {
    var t := [Digit(d1), Digit(d0)];
    assert DigitValue(Digit(d1)) == d1 && DigitValue(Digit(d0)) == d0;
    assert t[..1] == [Digit(d1)] && t[..1][..0] == [];
    assert DigitsValue(t[..1]) == d1;
  }

  lemma LastDigitOfNatToString(n: nat)
    ensures var s := NatToString(n); s[|s| - 1] == Digit(n % 10)
  {
  }

  lemma TwoLowDigits(y: nat)
    ensures y % 100 == 10 * ((y / 10) % 10) + y % 10
  {
  }

  /** The last two digits of a year of two or more digits are the year modulo 100. */
  lemma LastTwoOfYear(y: nat)
    requires y >= 10
    ensures var t := LastTwo(NatToString(y));
      |t| == 2 && AllDigits(t) && DigitsValue(t) == y % 100
  {
    var d1, d0 := (y / 10) % 10, y % 10;
    var hi := NatToString(y / 10);
    assert NatToString(y) == hi + [Digit(d0)];
    LastDigitOfNatToString(y / 10);
    assert LastTwo(NatToString(y)) == [Digit(d1), Digit(d0)];
    TwoDigitValue(d1, d0);
    TwoLowDigits(y);
  }

  /** Where the four parts sit in the assembled string. */
  lemma {:induction false} ReportLayout(year: string, month: string, random: string)
    requires |year| == 2 && |month| == 2 && |random| == 4
    ensures var r := "INC-" + year + month + "-" + random;
      |r| == 13 && r[..4] == "INC-" && r[4..6] == year && r[6..8] == month && r[8] == '-' && r[9..] == random
  {
  }

  /**
   * For any year from 10 on, the report number is 13 characters long and
   * reads back as the year's last two digits, the 1-based month and the
   * drawn number: distinct draws in one month give distinct numbers.
   */
  lemma ReportNumberRoundTrip(fullYear: nat, month0: nat, draw: nat)
    requires fullYear >= 10 && month0 < 12 && draw <= MaxDraw
    ensures |ReportNumber(fullYear, month0, draw)| == 13
    ensures ParseReportNumber(ReportNumber(fullYear, month0, draw)) == Some((fullYear % 100, month0 + 1, draw))
  {
    var year := LastTwo(NatToString(fullYear));
    var month := PadStart(NatToString(month0 + 1), 2, '0');
    var random := PadStart(NatToString(draw), 4, '0');
    LastTwoOfYear(fullYear);
    NatToStringWidth(month0 + 1, 2);
    NatToStringWidth(draw, 4);
    DigitsValueOfNatToString(month0 + 1);
    DigitsValueOfNatToString(draw);
    PaddedValue(NatToString(month0 + 1), 2);
    PaddedValue(NatToString(draw), 4);
    ReportLayout(year, month, random);
  }

  /** The incident row; only the columns the hook and defaults touch are kept. */
  class Incident {
    var vehicleId: Id
    var driverId: Id
    var incidentType: IncidentType
    var severity: Severity
    var status: Status
    var reportNumber: Option<string>

    constructor (vehicleId: Id, driverId: Id, incidentType: IncidentType, severity: Severity)
      ensures this.vehicleId == vehicleId && this.driverId == driverId
      ensures this.incidentType == incidentType && this.severity == severity
      ensures status == DefaultStatus && reportNumber == None
    {
      this.vehicleId := vehicleId;
      this.driverId := driverId;
      this.incidentType := incidentType;
      this.severity := severity;
      status := DefaultStatus;
      reportNumber := None;
    }

    /** The beforeCreate hook: writes the report number and nothing else. */
    method BeforeCreate(fullYear: nat, month0: nat, draw: nat)
      requires month0 < 12 && draw <= MaxDraw
      modifies this
      ensures reportNumber == Some(ReportNumber(fullYear, month0, draw))
      ensures vehicleId == old(vehicleId) && driverId == old(driverId) && incidentType == old(incidentType)
      ensures severity == old(severity) && status == old(status)
    {
      reportNumber := Some(ReportNumber(fullYear, month0, draw));
    }
  }
}
