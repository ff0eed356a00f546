/**
 * The display rules of the staff management page: the status colour, the
 * name formatter, and when the Add Staff Member button is enabled.
 */
module StaffPage {
  import Js
  import opened Text
  import opened Words

  /** getStatusColor on this page: a switch on the lower-cased status. */
  function StatusColor(status: string): (r: string)
    ensures r in {"success", "warning", "error", "default"}
    ensures r == "default" <==> LowerAll(status) !in {"active", "on leave", "inactive"}
  {
    var s := LowerAll(status);
    if s == "active" then "success"
    else if s == "on leave" then "warning"
    else if s == "inactive" then "error"
    else "default"
  }

  /** The colour does not depend on letter case. */
  lemma StatusColorIgnoresCase(status: string)
    ensures StatusColor(UpperAll(status)) == StatusColor(status)
    ensures StatusColor(LowerAll(status)) == StatusColor(status)
  {
    LowerAllForgetsCase(status);
  }

  /** formatName: every space-separated word gets a capital first letter and a lower-case rest. */
  function FormatName(name: string): string {
    Rewrite(name, ' ', ' ', Upper, Lower)
  }

  /**
   * Read character by character: spaces stay where they are, including
   * the empty words of a double space, a word's first letter is capital
   * and every other letter is small.
   */
  lemma FormatNameByCharacter(name: string)
    ensures |FormatName(name)| == |name|
    ensures forall i :: 0 <= i < |name| ==> (FormatName(name)[i] == ' ' <==> name[i] == ' ')
    ensures forall i :: 0 <= i < |name| && WordStart(name, ' ', true, i) ==> FormatName(name)[i] == Upper(name[i])
    ensures forall i :: 0 <= i < |name| && !WordStart(name, ' ', true, i) ==> FormatName(name)[i] == Lower(name[i])
  {
    RewriteIsScan(name, ' ', ' ', Upper, Lower);
  }

  /** Formatting a formatted name changes nothing. */
  lemma FormatNameIdempotent(name: string)
    ensures FormatName(FormatName(name)) == FormatName(name)
  {
    var t := FormatName(name);
    FormatNameByCharacter(name);
    FormatNameByCharacter(t);
    forall i | 0 <= i < |t|
      ensures FormatName(t)[i] == t[i]
    {
      assert WordStart(t, ' ', true, i) == WordStart(name, ' ', true, i);
    }
  }

  /** The new-staff form: every field starts as the empty string. */
  datatype StaffForm = StaffForm(
    name: string, role: string, email: string, phone: string,
    address: string, idNumber: string, licenseNumber: string, licenseExpiry: string)

  const BlankForm := StaffForm("", "", "", "", "", "", "", "")

  /** The button's `disabled` expression: any of the four fields falsy. */
  function AddDisabled(form: StaffForm): (disabled: bool)
    ensures disabled <==> form.name == "" || form.role == "" || form.email == "" || form.phone == ""
  {
    !Js.Truthy(Js.Str(form.name)) || !Js.Truthy(Js.Str(form.role)) ||
    !Js.Truthy(Js.Str(form.email)) || !Js.Truthy(Js.Str(form.phone))
  }

  /** The form is blank when the dialog opens and after each addition, so the button starts disabled. */
  lemma BlankFormCannotBeAdded()
    ensures AddDisabled(BlankForm)
  {
  }

  /** Address, id number and licence fields never affect the button. */
  lemma OptionalFieldsDoNotMatter(form: StaffForm, address: string, idNumber: string, licenseNumber: string, licenseExpiry: string)
    ensures AddDisabled(form.(address := address, idNumber := idNumber, licenseNumber := licenseNumber,
                              licenseExpiry := licenseExpiry)) == AddDisabled(form)
  {
  }
}
