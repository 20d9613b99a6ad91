/**
 * The income form shared by the onboarding and settings pages (and the amount field of
 * the home page): digit grouping of what the user types, reading a field back as a
 * number, the validity check that enables the save button, and the construction of a
 * new income with the documented defaults.
 */
module IncomeForm {
  import opened Wrappers
  import opened Strings
  import opened Types

  /** The seven text fields of the form; every numeric one holds digits and commas only. */
  datatype FormData = FormData(
    amount: string, hours: string, customTitle: string,
    daysPerWeek: string, daysPerMonth: string, avgDays: string, hoursPerDay: string)

  const EmptyForm: FormData := FormData("", "", "", "", "", "", "")

  const DefaultDailyHours: nat := 8
  const DefaultDaysPerWeek: nat := 6
  const DefaultDaysPerMonth: nat := 26
  const DefaultHoursPerDay: nat := 8
  const DefaultCustomHours: nat := 1
  const DefaultCustomTitle: string := "واحد سفارشی"

  // ---------------------------------------------------------------------------
  // Digit grouping

  /** `value.replace(/[^0-9]/g, '')`: the ASCII digits of `s`, in order. */
  function KeepDigits(s: string): (d: string)
    ensures AllDigits(d) && |d| <= |s|
  {
    if s == [] then [] else (if IsAsciiDigit(s[0]) then [s[0]] else []) + KeepDigits(s[1..])
  }

  /** `s.replace(/,/g, '')`: `s` without its commas. */
  function RemoveCommas(s: string): (t: string)
    ensures |t| <= |s|
    ensures forall i :: 0 <= i < |t| ==> t[i] != ','
  {
    if s == [] then [] else (if s[0] == ',' then [] else [s[0]]) + RemoveCommas(s[1..])
  }

  /** Text made of digits and commas only, as every numeric field of the form is. */
  predicate DigitsAndCommas(s: string) {
    forall i :: 0 <= i < |s| ==> s[i] == ',' || IsAsciiDigit(s[i])
  }

  /**
   * `d.replace(/\B(?=(\d{3})+(?!\d))/g, ',')` on a string of digits: a comma before
   * every inner position followed by a multiple of three digits. Read from the right,
   * every fourth character of the result is a comma and all others are digits.
   */
  function Group(d: string): (r: string)
    requires AllDigits(d)
    ensures |r| == 0 <==> |d| == 0
    ensures DigitsAndCommas(r)
    ensures forall i :: 0 <= i < |r| ==> (r[i] == ',' <==> (|r| - i) % 4 == 0)
  {
    if |d| <= 3 then d
    else
      var g := Group(d[..|d| - 3]);
      var r := g + "," + d[|d| - 3..];
      assert forall i :: 0 <= i < |g| ==> r[i] == g[i] && (|r| - i) % 4 == (|g| - i) % 4;
      r
  }

  /**
   * `formatNumberInput`: the digits of what was typed, grouped by thousands. Its properties
   * are FormatNumberInputDigits (removing the commas gives the digits back),
   * FormatNumberInputIdempotent and ParseFormattedInput.
   */
  function FormatNumberInput(value: string): string {
    Group(KeepDigits(value))
  }

  lemma {:induction false} RemoveCommasConcat(a: string, b: string)
    ensures RemoveCommas(a + b) == RemoveCommas(a) + RemoveCommas(b)
  {
    if a != [] {
      assert (a + b)[1..] == a[1..] + b;
      RemoveCommasConcat(a[1..], b);
    } else {
      assert a + b == b;
    }
  }

  lemma {:induction false} KeepDigitsConcat(a: string, b: string)
    ensures KeepDigits(a + b) == KeepDigits(a) + KeepDigits(b)
  {
    if a != [] {
      assert (a + b)[1..] == a[1..] + b;
      KeepDigitsConcat(a[1..], b);
    } else {
      assert a + b == b;
    }
  }

  /** On digits-and-commas text, keeping the digits is removing the commas. */
  lemma {:induction false} KeepDigitsIsRemoveCommas(s: string)
    requires DigitsAndCommas(s)
    ensures KeepDigits(s) == RemoveCommas(s)
  {
    if s != [] {
      KeepDigitsIsRemoveCommas(s[1..]);
    }
  }

  /** Digits pass through both filters unchanged. */
  lemma {:induction false} FiltersKeepDigits(d: string)
    requires AllDigits(d)
    ensures KeepDigits(d) == d && RemoveCommas(d) == d
  {
    if d != [] {
      FiltersKeepDigits(d[1..]);
    }
  }

  /** Stripping the commas of a grouped number gives back its digits. */
  lemma {:induction false} GroupRemoveCommas(d: string)
    requires AllDigits(d)
    ensures RemoveCommas(Group(d)) == d
  {
    if |d| <= 3 {
      FiltersKeepDigits(d);
    } else {
      var head, tail := d[..|d| - 3], d[|d| - 3..];
      GroupRemoveCommas(head);
      FiltersKeepDigits(tail);
      RemoveCommasConcat(Group(head) + ",", tail);
      RemoveCommasConcat(Group(head), ",");
      assert d == head + tail;
    }
  }

  /** formatNumberInput keeps exactly the typed digits: removing its commas gives them back. */
  lemma FormatNumberInputDigits(value: string)
    ensures RemoveCommas(FormatNumberInput(value)) == KeepDigits(value)
  {
    GroupRemoveCommas(KeepDigits(value));
  }

  /** Formatting an already formatted field changes nothing. */
  lemma FormatNumberInputIdempotent(value: string)
    ensures FormatNumberInput(FormatNumberInput(value)) == FormatNumberInput(value)
  {
    var d := KeepDigits(value);
    KeepDigitsIsRemoveCommas(Group(d));
    GroupRemoveCommas(d);
  }

  // ---------------------------------------------------------------------------
  // Reading fields back

  /**
   * `parseFloat(s.replace(/,/g, '')) || 0` on a form field: the value of the leading
   * digits once the commas are gone, and 0 when there are none. ParseFormattedInput
   * states that it reads back the digits FormatNumberInput kept.
   */
  function ParseFormNumber(s: string): nat {
    DigitsValue(LeadingDigits(RemoveCommas(s)))
  }

  /** Reading a formatted field gives the number spelled by the typed digits. */
  lemma ParseFormattedInput(value: string)
    ensures ParseFormNumber(FormatNumberInput(value)) == DigitsValue(KeepDigits(value))
  {
    FormatNumberInputDigits(value);
    LeadingDigitsAll(KeepDigits(value));
  }

  /** `n.toLocaleString('en-US')` for a natural number: its digits grouped by thousands. */
  function LocaleString(n: nat): string {
    Group(NatToString(n))
  }

  /** A natural number written with toString or toLocaleString reads back as itself. */
  lemma ParseWrittenNumber(n: nat)
    ensures ParseFormNumber(NatToString(n)) == n
    ensures ParseFormNumber(LocaleString(n)) == n
  {
    var s := NatToString(n);
    FiltersKeepDigits(s);
    LeadingDigitsAll(s);
    NatToStringValue(n);
    GroupRemoveCommas(s);
  }

  /** The numbers of the form, each field read with ParseFormNumber. */
  datatype FormNumbers = FormNumbers(
    amount: nat, hours: nat, daysPerWeek: nat, daysPerMonth: nat, avgDays: nat, hoursPerDay: nat)

  function ParseForm(f: FormData): FormNumbers {
    FormNumbers(ParseFormNumber(f.amount), ParseFormNumber(f.hours), ParseFormNumber(f.daysPerWeek),
                ParseFormNumber(f.daysPerMonth), ParseFormNumber(f.avgDays), ParseFormNumber(f.hoursPerDay))
  }

  // ---------------------------------------------------------------------------
  // Validity and construction

  /**
   * `isFormValid`: the amount is positive and so is every field the kind needs; with no
   * kind selected only the amount matters. ValidFormUsesEnteredValues and, for the
   * onboarding form, Onboarding.AddButtonEnabled state what a valid form yields.
   */
  function IsFormValid(selected: Option<IncomeType>, f: FormData): bool {
    var n := ParseForm(f);
    n.amount > 0 &&
    match selected
    case Some(Daily) => n.hours > 0
    case Some(Weekly) => n.daysPerWeek > 0 && n.hoursPerDay > 0
    case Some(Monthly) => n.daysPerMonth > 0 && n.hoursPerDay > 0
    case Some(Project) => n.avgDays > 0 && n.hoursPerDay > 0
    case Some(Custom) => n.hours > 0
    case _ => true
  }

  /** `x > 0 ? x : fallback`. */
  function OrDefault(x: nat, fallback: nat): (r: nat)
    ensures x > 0 ==> r == x
    ensures x == 0 ==> r == fallback
  {
    if x > 0 then x else fallback
  }

  /** `text || fallback` for a string. */
  function TextOr(text: string, fallback: string): (r: string)
    ensures text != "" ==> r == text
    ensures text == "" ==> r == fallback
  {
    if text != "" then text else fallback
  }

  /** The income the create path builds for kind `t` from the form, with id `id`. */
  function NewIncome(t: IncomeType, f: FormData, id: string): (r: Income)
    ensures TypeOf(r) == t && r.id == id && r.amount == ParseForm(f).amount
  {
    var n := ParseForm(f);
    match t
    case Hourly => HourlyIncome(id, n.amount, 1)
    case Daily => DailyIncome(id, n.amount, OrDefault(n.hours, DefaultDailyHours))
    case Weekly =>
      var days, perDay := OrDefault(n.daysPerWeek, DefaultDaysPerWeek), OrDefault(n.hoursPerDay, DefaultHoursPerDay);
      WeeklyIncome(id, n.amount, ScheduleHours(days, perDay), days, perDay)
    case Monthly =>
      var days, perDay := OrDefault(n.daysPerMonth, DefaultDaysPerMonth), OrDefault(n.hoursPerDay, DefaultHoursPerDay);
      MonthlyIncome(id, n.amount, ScheduleHours(days, perDay), days, perDay)
    case Project =>
      var days, perDay := OrDefault(n.avgDays, DefaultDaysPerMonth), OrDefault(n.hoursPerDay, DefaultHoursPerDay);
      ProjectIncome(id, n.amount, ScheduleHours(days, perDay), days, perDay)
    case Custom =>
      CustomIncome(id, n.amount, OrDefault(n.hours, DefaultCustomHours), TextOr(f.customTitle, DefaultCustomTitle))
  }

  /**
   * When the save button is enabled, the new income holds exactly what was entered and
   * no default: a positive amount, and the entered hours, days and hours per day.
   */
  lemma ValidFormUsesEnteredValues(t: IncomeType, f: FormData, id: string)
    requires IsFormValid(Some(t), f)
    ensures var n := ParseForm(f); var r := NewIncome(t, f, id);
      && r.amount == n.amount > 0
      && (t == Daily || t == Custom ==> r.hours == n.hours)
      && (r.WeeklyIncome? ==> r.daysPerWeek == n.daysPerWeek && r.hoursPerDay == n.hoursPerDay)
      && (r.MonthlyIncome? ==> r.daysPerMonth == n.daysPerMonth && r.hoursPerDay == n.hoursPerDay)
      && (r.ProjectIncome? ==> r.avgDays == n.avgDays && r.hoursPerDay == n.hoursPerDay)
  {
  }

  /** Every income the create path builds keeps the documented relation between its fields. */
  lemma NewIncomeConsistent(t: IncomeType, f: FormData, id: string)
    ensures ConsistentHours(NewIncome(t, f, id))
  {
  }

  /** An empty custom title becomes the default unit name. */
  lemma CustomTitleDefault(f: FormData, id: string)
    ensures NewIncome(Custom, f, id).title == if f.customTitle == "" then DefaultCustomTitle else f.customTitle
  {
  }
}
