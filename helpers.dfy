/**
 * The web client's shared helpers: the colour lookups for statuses and
 * priorities, the three input validators, the error-message picker, and the
 * two array helpers groupBy and sortBy.
 */
module Helpers {
  import Js
  import opened Outcome
  import opened Text

  // ---------------------------------------------------------------------
  // Colour lookups
  // ---------------------------------------------------------------------

  const StatusColors: map<string, string> := map[
    "active" := "success", "inactive" := "error", "pending" := "warning", "completed" := "success",
    "in progress" := "warning", "under investigation" := "warning", "resolved" := "success",
    "maintenance" := "info"]

  const PriorityColors: map<string, string> := map["high" := "error", "medium" := "warning", "low" := "success"]

  /** The members every object literal inherits from Object.prototype. */
  const PrototypeMembers: set<string> := {
    "constructor", "__proto__", "toString", "toLocaleString", "valueOf", "hasOwnProperty",
    "isPrototypeOf", "propertyIsEnumerable", "__defineGetter__", "__defineSetter__",
    "__lookupGetter__", "__lookupSetter__"}

  /** The prototype members a lower-cased name can reach: those whose names have no capital letter. */
  const InheritedNames: set<string> := {"constructor", "__proto__"}

  /** What `table[name]` yields on an object literal: an own colour name, or an inherited member. */
  datatype Lookup = Colour(name: string) | Inherited(member: string)

  /**
   * The lookup as written: `table[name.toLowerCase()] || 'default'`. The
   * lower-cased name is also looked up on the object's prototype, whose
   * members are truthy, so they come back in place of a colour.
   */
  function ColourAsWritten(table: map<string, string>, name: string): (r: Lookup)
    requires forall k :: k in table ==> table[k] != ""
    ensures r.Inherited? <==> LowerAll(name) !in table && LowerAll(name) in InheritedNames
    ensures r.Colour? ==> r.name == Colour(table, name)
  {
    var k := LowerAll(name);
    if k in table then Lookup.Colour(table[k])
    else if k in InheritedNames then Inherited(k)
    else Lookup.Colour("default")
  }

  /** A string with no capital letter is its own lower-case form. */
  lemma {:induction false} LowerAllOfLower(s: string)
    requires forall i :: 0 <= i < |s| ==> !IsUpper(s[i])
    ensures LowerAll(s) == s
  {
    assert forall i :: 0 <= i < |s| ==> LowerAll(s)[i] == s[i];
  }

  /** A status spelled "constructor", in any letter case, gets the Object constructor instead of a colour. */
  lemma ConstructorStatusHasNoColour(status: string)
    requires LowerAll(status) == "constructor"
    ensures ColourAsWritten(StatusColors, status) == Inherited("constructor")
  {
  }

  /** The same happens to the priority "__proto__", which reaches Object.prototype itself. */
  lemma ProtoPriorityHasNoColour()
    ensures ColourAsWritten(PriorityColors, "__proto__") == Inherited("__proto__")
  {
    LowerAllOfLower("__proto__");
  }

  /**
   * The intended lookup: the colour the table gives the lower-cased name,
   * and 'default' for every name the table does not list.
   */
  function Colour(table: map<string, string>, name: string): (r: string)
    ensures LowerAll(name) in table ==> r == table[LowerAll(name)]
    ensures LowerAll(name) !in table ==> r == "default"
  {
    var k := LowerAll(name);
    if k in table then table[k] else "default"
  }

  function StatusColor(status: string): (r: string)
    ensures r in {"success", "error", "warning", "info", "default"}
    ensures r == "default" <==> LowerAll(status) !in StatusColors
  {
    Colour(StatusColors, status)
  }

  function PriorityColor(priority: string): (r: string)
    ensures r in {"error", "warning", "success", "default"}
    ensures r == "default" <==> LowerAll(priority) !in PriorityColors
  {
    Colour(PriorityColors, priority)
  }

  /** Letter case never changes the colour: "ACTIVE", "Active" and "active" look alike. */
  lemma ColourIgnoresCase(table: map<string, string>, name: string)
    ensures Colour(table, UpperAll(name)) == Colour(table, name)
    ensures Colour(table, LowerAll(name)) == Colour(table, name)
  {
    LowerAllForgetsCase(name);
  }

  // ---------------------------------------------------------------------
  // Validators
  // ---------------------------------------------------------------------

  /** `\s` in a JavaScript regular expression: the white space and line terminator characters. */
  predicate IsSpace(c: char) {
    var n := c as int;
    n in {9, 10, 11, 12, 13, 32, 0xA0, 0x1680, 0x2028, 0x2029, 0x202F, 0x205F, 0x3000, 0xFEFF} ||
    0x2000 <= n <= 0x200A
  }

  /** `[^\s@]+`: a non-empty run with no white space and no '@'. */
  predicate Plain(s: string) {
    |s| > 0 && forall k :: 0 <= k < |s| ==> !IsSpace(s[k]) && s[k] != '@'
  }

  /** The language of `^[^\s@]+@[^\s@]+\.[^\s@]+$`. */
  ghost predicate EmailPattern(s: string) {
    exists local: string, host: string, tld: string ::
      s == local + "@" + host + "." + tld && Plain(local) && Plain(host) && Plain(tld)
  }

  /**
   * isValidEmail: no white space, exactly one '@' with text before it, and
   * a '.' after the '@' with text on both sides of it.
   */
  predicate IsValidEmail(s: string) {
    (forall k :: 0 <= k < |s| ==> !IsSpace(s[k])) &&
    exists at, dot :: 0 < at && at + 1 < dot < |s| - 1 && s[at] == '@' && s[dot] == '.' &&
      forall k :: 0 <= k < |s| && s[k] == '@' ==> k == at
  }

  /** Every string the characterisation accepts matches the regular expression. */
  lemma ValidEmailMatches(s: string)
    requires IsValidEmail(s)
    ensures EmailPattern(s)
  {
    var at, dot :| 0 < at && at + 1 < dot < |s| - 1 && s[at] == '@' && s[dot] == '.' &&
      forall k :: 0 <= k < |s| && s[k] == '@' ==> k == at;
    var local, host, tld := s[..at], s[at + 1..dot], s[dot + 1..];
    assert s == local + "@" + host + "." + tld;
    assert Plain(local) && Plain(host) && Plain(tld);
  }

  /** Every string the regular expression matches is accepted by the characterisation. */
  lemma MatchIsValidEmail(s: string)
    requires EmailPattern(s)
    ensures IsValidEmail(s)
  {
    var local: string, host: string, tld: string :|
      s == local + "@" + host + "." + tld && Plain(local) && Plain(host) && Plain(tld);
    var at, dot := |local|, |local| + 1 + |host|;
    forall k | 0 <= k < |s|
      ensures !IsSpace(s[k]) && (s[k] == '@' ==> k == at)
    {
      if k < at {
        assert s[k] == local[k];
      } else if at < k < dot {
        assert s[k] == host[k - at - 1];
      } else if dot < k {
        assert s[k] == tld[k - dot - 1];
      }
    }
    assert s[at] == '@' && s[dot] == '.';
  }

  /** The characterisation and the regular expression accept the same strings. */
  lemma EmailMatchesPattern(s: string)
    ensures IsValidEmail(s) <==> EmailPattern(s)
  {
    if IsValidEmail(s) {
      ValidEmailMatches(s);
    }
    if EmailPattern(s) {
      MatchIsValidEmail(s);
    }
  }

  /** `[1-9][0-9]{8}`: the nine digits after the prefix, the first not a zero. */
  predicate Subscriber(r: string) {
    |r| == 9 && '1' <= r[0] <= '9' && forall k :: 1 <= k < 9 ==> IsDigit(r[k])
  }

  /** isValidPhoneNumber: `^(\+27|0)[1-9][0-9]{8}$`. */
  predicate IsValidPhoneNumber(s: string) {
    (IsPrefix("+27", s) && Subscriber(s[3..])) || (IsPrefix("0", s) && Subscriber(s[1..]))
  }

  /** A valid number is ten characters in the national form, twelve in the international one. */
  lemma PhoneNumberLength(s: string)
    requires IsValidPhoneNumber(s)
    ensures s[0] == '0' ==> |s| == 10
    ensures s[0] == '+' ==> |s| == 12 && s[..3] == "+27"
    ensures forall k :: |s| - 9 <= k < |s| ==> IsDigit(s[k])
  {
    if IsPrefix("0", s) {
      assert s[0] != '+';
      assert forall k :: 1 <= k < |s| ==> s[k] == s[1..][k - 1];
    } else {
      assert s[0] == "+27"[0];
      assert forall k :: 3 <= k < |s| ==> s[k] == s[3..][k - 3];
    }
  }

  /** The two prefixes accept the same subscriber numbers. */
  lemma PrefixesAreInterchangeable(r: string)
    ensures IsValidPhoneNumber("+27" + r) <==> IsValidPhoneNumber("0" + r)
    ensures IsValidPhoneNumber("0" + r) <==> Subscriber(r)
  {
    assert ("+27" + r)[..3] == "+27" && ("+27" + r)[3..] == r;
    assert ("0" + r)[..1] == "0" && ("0" + r)[1..] == r;
    assert ("+27" + r)[0] == '+' && ("0" + r)[0] == '0';
    if |r| >= 2 {
      assert ("0" + r)[..3] != "+27";
    }
  }

  /** isValidVehicleNumber: `^MWV-\d{3}$`. */
  predicate IsValidVehicleNumber(s: string) {
    |s| == 7 && s[..4] == "MWV-" && forall k :: 4 <= k < 7 ==> IsDigit(s[k])
  }

  /** The fleet number n written as the validator expects it: three digits, zero-padded. */
  function VehicleNumber(n: nat): (s: string)
    requires n < 1000
    ensures IsValidVehicleNumber(s)
  {
    ThreeDigits(n);
    "MWV-" + PadStart(NatToString(n), 3, '0')
  }

  /** The number a valid vehicle number carries. */
  function FleetNumber(s: string): (n: nat)
    requires IsValidVehicleNumber(s)
    ensures n < 1000
  {
    var d := s[4..];
    assert Js.AllDigits(d);
    DigitsBelow(d);
    assert |d| == 3 && Pow10(1) == 10 && Pow10(2) == 100 && Pow10(3) == 1000;
    Js.DigitsValue(d)
  }

  lemma ThreeDigits(n: nat)
    requires n < 1000
    ensures |NatToString(n)| <= 3
  {
    if n >= 10 {
      ThreeDigits(n / 10);
    }
  }

  lemma {:induction false} DigitsBelow(d: string)
    requires Js.AllDigits(d)
    ensures Js.DigitsValue(d) < Pow10(|d|)
    decreases |d|
  {
    if d != [] {
      DigitsBelow(d[..|d| - 1]);
    }
  }

  function Pow10(k: nat): (p: nat)
    ensures p >= 1
  {
    if k == 0 then 1 else 10 * Pow10(k - 1)
  }

  /** Leading zeros do not change a digit string's value. */
  lemma {:induction false} LeadingZeros(z: nat, d: string)
    requires Js.AllDigits(d)
    ensures Js.AllDigits(seq(z, _ => '0') + d)
    ensures Js.DigitsValue(seq(z, _ => '0') + d) == Js.DigitsValue(d)
    decreases z + |d|
  {
    var s := seq(z, _ => '0') + d;
    if d == [] {
      assert s == seq(z, _ => '0');
      if z > 0 {
        assert s[..|s| - 1] == seq(z - 1, _ => '0') + [];
        LeadingZeros(z - 1, []);
      }
    } else {
      assert s[..|s| - 1] == seq(z, _ => '0') + d[..|d| - 1];
      LeadingZeros(z, d[..|d| - 1]);
    }
  }

  /** Writing a fleet number and reading it back gives the number. */
  lemma VehicleNumberRoundTrip(n: nat)
    requires n < 1000
    ensures FleetNumber(VehicleNumber(n)) == n
  {
    ThreeDigits(n);
    var t := NatToString(n);
    var padded := PadStart(t, 3, '0');
    Js.DigitsValueOfNatToString(n);
    assert padded == seq(3 - |t|, _ => '0') + t;
    LeadingZeros(3 - |t|, t);
    assert VehicleNumber(n)[4..] == padded;
  }

  /** Every valid vehicle number is the written form of its own number. */
  lemma ValidVehicleNumberIsWritten(s: string)
    requires IsValidVehicleNumber(s)
    ensures VehicleNumber(FleetNumber(s)) == s
  {
    var n := FleetNumber(s);
    var v := VehicleNumber(n);
    VehicleNumberRoundTrip(n);
    assert Js.AllDigits(v[4..]) && Js.AllDigits(s[4..]);
    assert Js.DigitsValue(v[4..]) == FleetNumber(v) == n == Js.DigitsValue(s[4..]);
    DigitsInjective(v[4..], s[4..]);
    assert v == v[..4] + v[4..] && s == s[..4] + s[4..];
  }

  /** Two digit strings of the same length with the same value are equal. */
  lemma {:induction false} DigitsInjective(a: string, b: string)
    requires |a| == |b| && Js.AllDigits(a) && Js.AllDigits(b)
    requires Js.DigitsValue(a) == Js.DigitsValue(b)
    ensures a == b
    decreases |a|
  {
    if a != [] {
      var k := |a| - 1;
      var va, vb := Js.DigitsValue(a[..k]), Js.DigitsValue(b[..k]);
      var da, db := DigitValue(a[k]), DigitValue(b[k]);
      assert 10 * va + da == 10 * vb + db;
      assert da == (10 * va + da) % 10 && db == (10 * vb + db) % 10;
      assert va == vb;
      DigitsInjective(a[..k], b[..k]);
      assert a == a[..k] + [a[k]] && b == b[..k] + [b[k]];
      assert Digit(da) == a[k] && Digit(db) == b[k];
    }
  }

  // ---------------------------------------------------------------------
  // getErrorMessage
  // ---------------------------------------------------------------------

  const UnknownError := "An unknown error occurred"

  /** `v.name` on a value that is not undefined or null: only objects carry the properties read here. */
  function Prop(v: Js.Value, name: string): Js.Value {
    if v.Obj? then Js.Get(v.fields, name) else Js.Undefined
  }

  /** `error.response?.data?.message`. */
  function ResponseMessage(error: Js.Value): Js.Value {
    var response := Prop(error, "response");
    if response.Undefined? || response.Null? then Js.Undefined
    else
      var data := Prop(response, "data");
      if data.Undefined? || data.Null? then Js.Undefined else Prop(data, "message")
  }

  /**
   * getErrorMessage: a string is its own message; otherwise the server's
   * message, then the error's own message, then a fixed text. Reading
   * `response` of undefined or null throws, which is None here.
   */
  function ErrorMessage(error: Js.Value): (r: Option<Js.Value>)
    ensures r.None? <==> error.Undefined? || error.Null?
    ensures error.Str? ==> r == Some(error)
    ensures r.Some? && !error.Str? && Js.Truthy(ResponseMessage(error)) ==> r.value == ResponseMessage(error)
    ensures r.Some? && !error.Str? && !Js.Truthy(ResponseMessage(error)) && Js.Truthy(Prop(error, "message")) ==>
              r.value == Prop(error, "message")
    ensures r.Some? && !error.Str? ==> Js.Truthy(r.value)
  {
    if error.Str? then Some(error)
    else if error.Undefined? || error.Null? then None
    else if Js.Truthy(ResponseMessage(error)) then Some(ResponseMessage(error))
    else if Js.Truthy(Prop(error, "message")) then Some(Prop(error, "message"))
    else Some(Js.Str(UnknownError))
  }

  /** The fallback text appears exactly when neither message is present. */
  lemma FallbackOnlyWithoutMessages(error: Js.Value)
    requires !error.Str? && !error.Undefined? && !error.Null?
    requires !Js.Truthy(ResponseMessage(error)) && !Js.Truthy(Prop(error, "message"))
    ensures ErrorMessage(error) == Some(Js.Str(UnknownError))
  {
  }

  /** A message that is a string is final: picking again returns it unchanged. */
  lemma {:induction false} StringMessageIsFinal(error: Js.Value)
    requires ErrorMessage(error).Some? && ErrorMessage(error).value.Str?
    ensures ErrorMessage(ErrorMessage(error).value) == ErrorMessage(error)
  {
  }

  /** The server's message outranks the error's own message. */
  lemma ServerMessageWins(server: string, own: string)
    requires server != ""
    ensures var error := Js.Obj(map["message" := Js.Str(own),
                                    "response" := Js.Obj(map["data" := Js.Obj(map["message" := Js.Str(server)])])]);
            ErrorMessage(error) == Some(Js.Str(server))
  {
  }

  // ---------------------------------------------------------------------
  // groupBy
  // ---------------------------------------------------------------------

  /** `item[key]`. */
  function KeyOf(item: Js.Object, key: string): Js.Value {
    Js.Get(item, key)
  }

  /**
   * A key that names a member of Object.prototype, taken as written (groupBy
   * does not lower-case it): `result[k] || []` yields that member, which is
   * not an array, and `push` throws.
   */
  predicate ReachesPrototype(k: Js.Value) {
    k.Str? && k.s in PrototypeMembers
  }

  /** The items whose key is k, in input order. */
  function Members(items: seq<Js.Object>, key: string, k: Js.Value): (g: seq<Js.Object>)
    ensures |g| <= |items|
  {
    if items == [] then []
    else
      var last := items[|items| - 1];
      Members(items[..|items| - 1], key, k) + (if KeyOf(last, key) == k then [last] else [])
  }

  /** A key no item carries has an empty group. */
  lemma {:induction false} MembersOfAbsentKey(items: seq<Js.Object>, key: string, k: Js.Value)
    requires forall j :: 0 <= j < |items| ==> KeyOf(items[j], key) != k
    ensures Members(items, key, k) == []
    decreases |items|
  {
    if items != [] {
      MembersOfAbsentKey(items[..|items| - 1], key, k);
    }
  }

  /** Grouping keeps input order: the group of a concatenation is the two groups one after the other. */
  lemma {:induction false} MembersAppend(a: seq<Js.Object>, b: seq<Js.Object>, key: string, k: Js.Value)
    ensures Members(a + b, key, k) == Members(a, key, k) + Members(b, key, k)
    decreases |b|
  {
    if b == [] {
      assert a + b == a;
    } else {
      var b' := b[..|b| - 1];
      assert (a + b)[..|a + b| - 1] == a + b';
      MembersAppend(a, b', key, k);
    }
  }

  /** The sizes of the groups of the distinct keys add up to the number of items. */
  lemma {:induction false} GroupsPartition(items: seq<Js.Object>, key: string, keys: seq<Js.Value>)
    requires forall i, j :: 0 <= i < j < |keys| ==> keys[i] != keys[j]
    requires forall i :: 0 <= i < |items| ==> KeyOf(items[i], key) in keys
    ensures GroupSizes(items, key, keys) == |items|
    decreases |items|
  {
    if items == [] {
      NoItemsNoGroups(key, keys);
    } else {
      var init, last := items[..|items| - 1], items[|items| - 1];
      assert items == init + [last];
      assert forall i :: 0 <= i < |init| ==> init[i] == items[i];
      GroupsPartition(init, key, keys);
      GroupSizesStep(init, last, key, keys);
    }
  }

  lemma {:induction false} NoItemsNoGroups(key: string, keys: seq<Js.Value>)
    ensures GroupSizes([], key, keys) == 0
    decreases |keys|
  {
    if keys != [] {
      NoItemsNoGroups(key, keys[1..]);
    }
  }

  function GroupSizes(items: seq<Js.Object>, key: string, keys: seq<Js.Value>): nat
    decreases |keys|
  {
    if keys == [] then 0 else |Members(items, key, keys[0])| + GroupSizes(items, key, keys[1..])
  }

  lemma {:induction false} GroupSizesStep(init: seq<Js.Object>, last: Js.Object, key: string, keys: seq<Js.Value>)
    requires forall i, j :: 0 <= i < j < |keys| ==> keys[i] != keys[j]
    ensures KeyOf(last, key) in keys ==> GroupSizes(init + [last], key, keys) == GroupSizes(init, key, keys) + 1
    ensures KeyOf(last, key) !in keys ==> GroupSizes(init + [last], key, keys) == GroupSizes(init, key, keys)
    decreases |keys|
  {
    var items := init + [last];
    assert items[..|items| - 1] == init;
    if keys != [] {
      GroupSizesStep(init, last, key, keys[1..]);
      assert KeyOf(last, key) == keys[0] ==> KeyOf(last, key) !in keys[1..];
    }
  }

  /** `result` holds exactly the groups of `items`' keys, each with its members in order. */
  ghost predicate Grouped(items: seq<Js.Object>, key: string, result: map<Js.Value, seq<Js.Object>>) {
    && (forall k :: k in result <==> exists j :: 0 <= j < |items| && KeyOf(items[j], key) == k)
    && (forall k :: k in result ==> result[k] == Members(items, key, k))
  }

  /** Pushing the next item onto its key's group, created empty on first use, groups one more item. */
  lemma GroupedStep(items: seq<Js.Object>, key: string, i: nat, result: map<Js.Value, seq<Js.Object>>)
    requires i < |items| && Grouped(items[..i], key, result)
    ensures var k := KeyOf(items[i], key);
            Grouped(items[..i + 1], key, result[k := (if k in result then result[k] else []) + [items[i]]])
  {
    var k := KeyOf(items[i], key);
    if k !in result {
      MembersOfAbsentKey(items[..i], key, k);
    }
    assert items[..i + 1][..i] == items[..i];
    assert forall k' :: Members(items[..i + 1], key, k') == Members(items[..i], key, k') + (if KeyOf(items[i], key) == k' then [items[i]] else []);
  }

  /**
   * groupBy: the reduce that pushes each item onto the array stored under
   * its key, creating the array on first use. It throws when a key is one
   * of the prototype's names.
   */
  method GroupBy(items: seq<Js.Object>, key: string) returns (r: Option<map<Js.Value, seq<Js.Object>>>)
    ensures r.None? <==> exists i :: 0 <= i < |items| && ReachesPrototype(KeyOf(items[i], key))
    ensures r.Some? ==> forall k :: k in r.value <==> exists i :: 0 <= i < |items| && KeyOf(items[i], key) == k
    ensures r.Some? ==> forall k :: k in r.value ==> r.value[k] == Members(items, key, k)
  {
    var result: map<Js.Value, seq<Js.Object>> := map[];
    for i := 0 to |items|
      invariant forall j :: 0 <= j < i ==> !ReachesPrototype(KeyOf(items[j], key))
      invariant Grouped(items[..i], key, result)
    {
      var k := KeyOf(items[i], key);
      if ReachesPrototype(k) {
        return None;
      }
      var group := if k in result then result[k] else [];
      GroupedStep(items, key, i, result);
      result := result[k := group + [items[i]]];
    }
    assert items[..|items|] == items;
    return Some(result);
  }

  // ---------------------------------------------------------------------
  // sortBy
  // ---------------------------------------------------------------------

  /**
   * The comparator returns 1 (x goes after y) when `x[key] > y[key]` in
   * ascending order, when `x[key] < y[key]` otherwise, and -1 in every other
   * case, so it never reports two items as equal.
   */
  predicate After(x: Js.Object, y: Js.Object, key: string, ascending: bool) {
    if ascending then Js.ValueLess(KeyOf(y, key), KeyOf(x, key)) else Js.ValueLess(KeyOf(x, key), KeyOf(y, key))
  }

  /** All keys are numbers, or all keys are strings. */
  predicate SameKind(s: seq<Js.Object>, key: string) {
    (forall i :: 0 <= i < |s| ==> KeyOf(s[i], key).Num?) || (forall i :: 0 <= i < |s| ==> KeyOf(s[i], key).Str?)
  }

  /** Different items have different keys. */
  predicate DistinctKeys(s: seq<Js.Object>, key: string) {
    forall i, j :: 0 <= i < |s| && 0 <= j < |s| && s[i] != s[j] ==> KeyOf(s[i], key) != KeyOf(s[j], key)
  }

  /** x's key comes no later than y's in the requested order. */
  predicate KeyAtMost(x: Js.Object, y: Js.Object, key: string, ascending: bool) {
    KeyOf(x, key) == KeyOf(y, key) ||
    (if ascending then Js.ValueLess(KeyOf(x, key), KeyOf(y, key)) else Js.ValueLess(KeyOf(y, key), KeyOf(x, key)))
  }

  lemma ValueLessIrreflexive(a: Js.Value)
    ensures !Js.ValueLess(a, a)
  {
    if a.Str? {
      Js.StrLessIrreflexive(a.s);
    }
  }

  lemma ValueLessAsymmetric(a: Js.Value, b: Js.Value)
    ensures !(Js.ValueLess(a, b) && Js.ValueLess(b, a))
  {
    if a.Str? && b.Str? && Js.StrLess(a.s, b.s) && Js.StrLess(b.s, a.s) {
      Js.StrLessTransitive(a.s, b.s, a.s);
      Js.StrLessIrreflexive(a.s);
    }
  }

  /** On numbers alone or strings alone, `<` is a strict total order. */
  lemma ValueLessOrder(a: Js.Value, b: Js.Value, c: Js.Value)
    requires (a.Num? && b.Num? && c.Num?) || (a.Str? && b.Str? && c.Str?)
    ensures a != b ==> Js.ValueLess(a, b) || Js.ValueLess(b, a)
    ensures Js.ValueLess(a, b) && Js.ValueLess(b, c) ==> Js.ValueLess(a, c)
  {
    if a.Str? {
      if a != b {
        Js.StrLessTotal(a.s, b.s);
      }
      if Js.ValueLess(a, b) && Js.ValueLess(b, c) {
        Js.StrLessTransitive(a.s, b.s, c.s);
      }
    }
  }

  /** With keys of one kind and distinct, "not after" chains. */
  lemma NotAfterChains(s: seq<Js.Object>, key: string, ascending: bool, x: Js.Object, y: Js.Object, z: Js.Object)
    requires SameKind(s, key) && DistinctKeys(s, key)
    requires x in s && y in s && z in s
    requires !After(x, y, key, ascending) && !After(y, z, key, ascending)
    ensures !After(x, z, key, ascending)
  {
    var kx, ky, kz := KeyOf(x, key), KeyOf(y, key), KeyOf(z, key);
    ValueLessIrreflexive(kx);
    if kx != ky && ky != kz && kx != kz {
      ValueLessOrder(kx, ky, kz);
      ValueLessOrder(ky, kz, kx);
      ValueLessOrder(kz, ky, kx);
      ValueLessOrder(kx, kz, ky);
      ValueLessAsymmetric(kx, kz);
    }
  }

  /** With keys of one kind, "not after" is "at most". */
  lemma NotAfterIsAtMost(s: seq<Js.Object>, key: string, ascending: bool, x: Js.Object, y: Js.Object)
    requires SameKind(s, key) && x in s && y in s
    requires !After(x, y, key, ascending)
    ensures KeyAtMost(x, y, key, ascending)
  {
    ValueLessOrder(KeyOf(x, key), KeyOf(y, key), KeyOf(x, key));
  }

  lemma InPermutation(r: seq<Js.Object>, a: seq<Js.Object>, i: int)
    requires multiset(r) == multiset(a) && 0 <= i < |r|
    ensures r[i] in a
  {
    assert r[i] in multiset(r);
  }

  lemma SwapPermutes(s: seq<Js.Object>, j: int)
    requires 0 < j < |s|
    ensures multiset(s[j - 1 := s[j]][j := s[j - 1]]) == multiset(s)
  {
  }

  /** No item in s[lo..hi] goes after a later one. */
  predicate InOrder(s: seq<Js.Object>, lo: int, hi: int, key: string, ascending: bool)
    requires 0 <= lo <= hi <= |s|
  {
    forall p, q :: lo <= p < q < hi ==> !After(s[p], s[q], key, ascending)
  }

  /** No item before j goes after an item in s[j + 1..i + 1]. */
  predicate Apart(s: seq<Js.Object>, j: int, i: int, key: string, ascending: bool)
    requires 0 <= j <= i < |s|
  {
    forall p, q :: 0 <= p < j < q <= i ==> !After(s[p], s[q], key, ascending)
  }

  /** One step of the insertion: the item at j swaps with the one before it, which went after it. */
  lemma SwapKeepsOrder(s: seq<Js.Object>, j: int, i: int, key: string, ascending: bool)
    requires 0 < j <= i < |s|
    requires InOrder(s, 0, j, key, ascending) && InOrder(s, j, i + 1, key, ascending) && Apart(s, j, i, key, ascending)
    requires After(s[j - 1], s[j], key, ascending)
    ensures var t := s[j - 1 := s[j]][j := s[j - 1]];
      InOrder(t, 0, j - 1, key, ascending) && InOrder(t, j - 1, i + 1, key, ascending) && Apart(t, j - 1, i, key, ascending)
  {
    ValueLessAsymmetric(KeyOf(s[j - 1], key), KeyOf(s[j], key));
  }

  /** The insertion stops where the item before does not go after it: the prefix through i is in order. */
  lemma InsertionDone(s: seq<Js.Object>, a: seq<Js.Object>, j: int, i: int, key: string, ascending: bool)
    requires 0 <= j <= i < |s| && multiset(s) == multiset(a)
    requires SameKind(a, key) && DistinctKeys(a, key)
    requires InOrder(s, 0, j, key, ascending) && InOrder(s, j, i + 1, key, ascending) && Apart(s, j, i, key, ascending)
    requires j > 0 ==> !After(s[j - 1], s[j], key, ascending)
    ensures InOrder(s, 0, i + 1, key, ascending)
  {
    if j > 0 {
      forall p | 0 <= p < j - 1
        ensures !After(s[p], s[j], key, ascending)
      {
        InPermutation(s, a, p);
        InPermutation(s, a, j - 1);
        InPermutation(s, a, j);
        NotAfterChains(a, key, ascending, s[p], s[j - 1], s[j]);
      }
    }
  }

  /** An array in comparator order is in key order. */
  lemma InOrderIsKeyOrder(s: seq<Js.Object>, a: seq<Js.Object>, key: string, ascending: bool)
    requires multiset(s) == multiset(a) && SameKind(a, key)
    requires InOrder(s, 0, |s|, key, ascending)
    ensures forall p, q :: 0 <= p < q < |s| ==> KeyAtMost(s[p], s[q], key, ascending)
  {
    forall p, q | 0 <= p < q < |s|
      ensures KeyAtMost(s[p], s[q], key, ascending)
    {
      InPermutation(s, a, p);
      InPermutation(s, a, q);
      NotAfterIsAtMost(a, key, ascending, s[p], s[q]);
    }
  }

  /**
   * sortBy: a copy of the array sorted with the key comparator. The input
   * is not touched. When the keys are distinct and of one kind the
   * comparator is consistent and the copy is in key order; otherwise the
   * copy is some permutation of the input.
   */
  method SortBy(a: array<Js.Object>, key: string, direction: string) returns (r: array<Js.Object>)
    ensures fresh(r) && r.Length == a.Length
    ensures multiset(r[..]) == multiset(a[..])
    ensures SameKind(a[..], key) && DistinctKeys(a[..], key) ==>
              forall p, q :: 0 <= p < q < r.Length ==> KeyAtMost(r[p], r[q], key, direction == "asc")
  {
    var ascending := direction == "asc";
    r := new Js.Object[a.Length](i requires 0 <= i < a.Length reads a => a[i]);
    assert r[..] == a[..];
    ghost var consistent := SameKind(a[..], key) && DistinctKeys(a[..], key);
    for i := 0 to r.Length
      invariant multiset(r[..]) == multiset(a[..])
      invariant consistent ==> InOrder(r[..], 0, i, key, ascending)
    {
      var j := i;
      while j > 0 && After(r[j - 1], r[j], key, ascending)
        invariant 0 <= j <= i
        invariant multiset(r[..]) == multiset(a[..])
        invariant consistent ==>
          InOrder(r[..], 0, j, key, ascending) && InOrder(r[..], j, i + 1, key, ascending) && Apart(r[..], j, i, key, ascending)
      {
        ghost var s := r[..];
        if consistent {
          SwapKeepsOrder(s, j, i, key, ascending);
        }
        SwapPermutes(s, j);
        r[j - 1], r[j] := r[j], r[j - 1];
        assert r[..] == s[j - 1 := s[j]][j := s[j - 1]];
        j := j - 1;
      }
      if consistent {
        InsertionDone(r[..], a[..], j, i, key, ascending);
      }
    }
    if consistent {
      InOrderIsKeyOrder(r[..], a[..], key, ascending);
    }
  }
}
