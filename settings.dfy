/**
 * components/app/SettingsPage.tsx: the income list with its add/edit dialog.
 *
 * The page's component state is one object. The save handler builds an income from the
 * form (the create path, or the edit path that keeps the edited income's id, kind and
 * details) and hands it to the store. The labels and descriptions shown for each income
 * are functions of the income. Toasts and rendering are not modelled.
 */
module Settings {
  import opened Wrappers
  import opened Strings
  import opened Types
  import opened IncomeForm
  import Store
  import Time

  // ---------------------------------------------------------------------------
  // Display

  /** `INCOME_TYPES`: every kind with its label, in the order the page lists them. */
  const IncomeTypes: seq<(IncomeType, string)> := [
    (Hourly, "ساعتی"), (Daily, "روزانه"), (Weekly, "هفتگی"),
    (Monthly, "ماهانه"), (Project, "پروژه\U{200C}ای"), (Custom, "سفارشی")]

  /** The `type` tag of a kind, as stored in an income. */
  function TypeTag(t: IncomeType): string {
    match t
    case Hourly => "hourly"
    case Daily => "daily"
    case Weekly => "weekly"
    case Monthly => "monthly"
    case Project => "project"
    case Custom => "custom"
  }

  /** `table.find(e => e.type === t)?.label`. */
  function FindLabel(table: seq<(IncomeType, string)>, t: IncomeType): (r: Option<string>)
    ensures r.Some? <==> exists k :: 0 <= k < |table| && table[k].0 == t
  {
    if table == [] then None
    else if table[0].0 == t then Some(table[0].1)
    else
      var rest := FindLabel(table[1..], t);
      assert forall k :: 1 <= k < |table| ==> table[k] == table[1..][k - 1];
      rest
  }

  /**
   * `getIncomeLabel`: a custom income's title (or "سفارشی" without one), else its kind's
   * label. IncomeLabelOfKind states that two non-custom incomes share a label exactly when
   * they share a kind.
   */
  function IncomeLabel(i: Income): string {
    if i.CustomIncome? then TextOr(i.title, "سفارشی")
    else TextOr(FindLabel(IncomeTypes, TypeOf(i)).GetOr(""), TypeTag(TypeOf(i)))
  }

  /** Every kind is listed, at its own position. */
  lemma FindLabelListed(t: IncomeType)
    ensures FindLabel(IncomeTypes, t) == Some(IncomeTypes[KindIndex(t)].1)
  {
    var table := IncomeTypes;
    assert table[1..][1..][1..][1..][1..] == [(Custom, "سفارشی")];
  }

  /** The six labels differ from each other. */
  lemma LabelsDistinct(a: nat, b: nat)
    requires a < b < |IncomeTypes|
    ensures IncomeTypes[a].1 != IncomeTypes[b].1
  {
    var s, t := IncomeTypes[a].1, IncomeTypes[b].1;
    assert s[0] != t[0] || s[1] != t[1];
  }

  /**
   * Every kind is listed, so the raw tag never shows; the six labels differ, so an
   * untitled income's label tells its kind.
   */
  lemma IncomeLabelOfKind(i: Income, j: Income)
    ensures !i.CustomIncome? ==> IncomeLabel(i) == IncomeTypes[KindIndex(TypeOf(i))].1
    ensures !i.CustomIncome? && !j.CustomIncome? ==> (IncomeLabel(i) == IncomeLabel(j) <==> TypeOf(i) == TypeOf(j))
    ensures i.CustomIncome? && i.title == "" ==> IncomeLabel(i) == IncomeTypes[5].1
  {
    FindLabelListed(TypeOf(i));
    FindLabelListed(TypeOf(j));
    var a, b := KindIndex(TypeOf(i)), KindIndex(TypeOf(j));
    if a < b {
      LabelsDistinct(a, b);
    } else if b < a {
      LabelsDistinct(b, a);
    }
  }

  /** The position of a kind in the list the page shows. */
  function KindIndex(t: IncomeType): (k: nat)
    ensures k < |IncomeTypes| && IncomeTypes[k].0 == t
  {
    match t
    case Hourly => 0
    case Daily => 1
    case Weekly => 2
    case Monthly => 3
    case Project => 4
    case Custom => 5
  }

  /** `formatNumber` for a whole number: grouped by thousands, in Persian digits. */
  function FormatNumber(n: nat): string {
    Time.ToPersianDigits(LocaleString(n))
  }

  /**
   * `formatCurrency` for a whole amount: the grouped number in Persian digits, then "تومان".
   * It is the common head of every IncomeDescription, as DescriptionFallbacks shows.
   */
  function FormatCurrency(amount: nat): string {
    FormatNumber(amount) + " تومان"
  }

  /** A formatted number reads back as itself once its digits are turned back into ASCII. */
  lemma FormatNumberReadsBack(n: nat)
    ensures ParseFormNumber(Time.ToEnglishDigits(FormatNumber(n))) == n
  {
    var s := LocaleString(n);
    forall i | 0 <= i < |s| ensures !Time.IsPersianDigit(s[i]) {
      assert s[i] == ',' || IsAsciiDigit(s[i]);
    }
    Time.DigitsRoundTrip(s);
    ParseWrittenNumber(n);
  }

  /** The `(days × hours)` figure of a description, with the numbers in ASCII digits. */
  function Schedule(days: nat, perDay: nat): string {
    " (" + NatToString(days) + " روز × " + NatToString(perDay) + " ساعت)"
  }

  /**
   * `getIncomeDescription`, with 6, 26 and 8 standing in for missing days and hours.
   * DescriptionFallbacks states those defaults.
   */
  function IncomeDescription(i: Income): string {
    match i
    case HourlyIncome(_, amount, _) => FormatCurrency(amount) + " در ساعت"
    case DailyIncome(_, amount, hours) => FormatCurrency(amount) + " در روز (" + NatToString(hours) + " ساعت)"
    case WeeklyIncome(_, amount, _, days, perDay) =>
      FormatCurrency(amount) + " در هفته" + Schedule(OrDefault(days, 6), OrDefault(perDay, 8))
    case MonthlyIncome(_, amount, _, days, perDay) =>
      FormatCurrency(amount) + " در ماه" + Schedule(OrDefault(days, 26), OrDefault(perDay, 8))
    case ProjectIncome(_, amount, _, days, perDay) =>
      "میانگین " + FormatCurrency(amount) + Schedule(OrDefault(days, 26), OrDefault(perDay, 8))
    case CustomIncome(_, amount, hours, title) =>
      FormatCurrency(amount) + " به ازای هر " + TextOr(title, "واحد") + " (" + NatToString(hours) + " ساعت)"
  }

  /**
   * A missing day or hour count is described as the default: 6 days a week, 26 days a
   * month or project, 8 hours a day, and a custom unit without a title as "واحد".
   */
  lemma DescriptionFallbacks(id: string, amount: nat, hours: nat, days: nat, perDay: nat)
    ensures IncomeDescription(WeeklyIncome(id, amount, hours, 0, 0)) == IncomeDescription(WeeklyIncome(id, amount, hours, 6, 8))
    ensures IncomeDescription(MonthlyIncome(id, amount, hours, 0, 0)) == IncomeDescription(MonthlyIncome(id, amount, hours, 26, 8))
    ensures IncomeDescription(ProjectIncome(id, amount, hours, 0, 0)) == IncomeDescription(ProjectIncome(id, amount, hours, 26, 8))
    ensures IncomeDescription(CustomIncome(id, amount, hours, "")) == IncomeDescription(CustomIncome(id, amount, hours, "واحد"))
    ensures days > 0 && perDay > 0 ==>
      IncomeDescription(WeeklyIncome(id, amount, hours, days, perDay)) == FormatCurrency(amount) + " در هفته" + Schedule(days, perDay)
  {
  }

  // ---------------------------------------------------------------------------
  // The dialog form

  /**
   * `openEditDialog`'s form: the amount grouped by thousands, the daily and custom hours
   * as plain digits, the days and hours per day with their defaults, the custom title.
   */
  function PrefillForm(i: Income): FormData {
    var base := EmptyForm.(amount := LocaleString(i.amount));
    match i
    case HourlyIncome(_, _, _) => base
    case DailyIncome(_, _, hours) => base.(hours := NatToString(hours))
    case WeeklyIncome(_, _, _, days, perDay) =>
      base.(daysPerWeek := NatToString(OrDefault(days, 6)), hoursPerDay := NatToString(OrDefault(perDay, 8)))
    case MonthlyIncome(_, _, _, days, perDay) =>
      base.(daysPerMonth := NatToString(OrDefault(days, 26)), hoursPerDay := NatToString(OrDefault(perDay, 8)))
    case ProjectIncome(_, _, _, days, perDay) =>
      base.(avgDays := NatToString(OrDefault(days, 26)), hoursPerDay := NatToString(OrDefault(perDay, 8)))
    case CustomIncome(_, _, hours, title) => base.(hours := NatToString(hours), customTitle := title)
  }

  /**
   * The edit path of `handleSave`. Spreading the edited income and then setting every
   * field the kind has leaves nothing of the old income but its id and kind, so the
   * result is what the create path builds under that id; a custom income alone keeps a
   * field of its own, its title.
   */
  function EditedIncome(e: Income, f: FormData): (r: Income)
    ensures r.id == e.id && TypeOf(r) == TypeOf(e)
    ensures r.amount == ParseForm(f).amount
    ensures r.CustomIncome? ==> r.title == e.title
  {
    if e.CustomIncome? then
      CustomIncome(e.id, ParseForm(f).amount, OrDefault(ParseForm(f).hours, DefaultCustomHours), e.title)
    else NewIncome(TypeOf(e), f, e.id)
  }

  /** Every income the edit path builds keeps the documented relation between its fields. */
  lemma EditedIncomeConsistent(e: Income, f: FormData)
    ensures ConsistentHours(EditedIncome(e, f))
  {
    NewIncomeConsistent(TypeOf(e), f, e.id);
  }

  /**
   * Opening the edit dialog on a well-formed income with a positive amount gives a form
   * that enables the save button and that, saved unchanged, gives back the same income.
   */
  lemma EditUnchangedRoundTrip(i: Income)
    requires ConsistentHours(i) && i.amount > 0
    ensures IsFormValid(Some(TypeOf(i)), PrefillForm(i))
    ensures EditedIncome(i, PrefillForm(i)) == i
  {
    PrefillParses(i);
  }

  /** The numbers a well-formed income's prefilled form reads back as. */
  function PrefillNumbers(i: Income): FormNumbers {
    var base := FormNumbers(i.amount, 0, 0, 0, 0, 0);
    match i
    case HourlyIncome(_, _, _) => base
    case DailyIncome(_, _, hours) => base.(hours := hours)
    case WeeklyIncome(_, _, _, days, perDay) => base.(daysPerWeek := days, hoursPerDay := perDay)
    case MonthlyIncome(_, _, _, days, perDay) => base.(daysPerMonth := days, hoursPerDay := perDay)
    case ProjectIncome(_, _, _, days, perDay) => base.(avgDays := days, hoursPerDay := perDay)
    case CustomIncome(_, _, hours, _) => base.(hours := hours)
  }

  lemma PrefillParses(i: Income)
    requires ConsistentHours(i)
    ensures ParseForm(PrefillForm(i)) == PrefillNumbers(i)
  {
    ParseWrittenNumber(i.amount);
    assert ParseFormNumber("") == 0 by {
      assert RemoveCommas("") == "";
      LeadingDigitsAll("");
    }
    match i
    case DailyIncome(_, _, hours) =>
      ParseWrittenNumber(hours);
    case CustomIncome(_, _, hours, _) =>
      ParseWrittenNumber(hours);
    case WeeklyIncome(_, _, _, days, perDay) =>
      ParseWrittenNumber(days);
      ParseWrittenNumber(perDay);
    case MonthlyIncome(_, _, _, days, perDay) =>
      ParseWrittenNumber(days);
      ParseWrittenNumber(perDay);
    case ProjectIncome(_, _, _, days, perDay) =>
      ParseWrittenNumber(days);
      ParseWrittenNumber(perDay);
    case HourlyIncome(_, _, _) =>
  }

  // ---------------------------------------------------------------------------
  // The page

  class SettingsPage {
    var showAddDialog: bool
    var editingIncome: Option<Income>
    var selectedType: IncomeType
    var form: FormData
    var isSaving: bool
    var deletingId: Option<string>

    /** An income is being edited only inside the open dialog, with its own kind selected. */
    predicate Valid()
      reads this
    {
      editingIncome.Some? ==> showAddDialog && selectedType == TypeOf(editingIncome.value)
    }

    constructor ()
      ensures Valid()
      ensures !showAddDialog && editingIncome == None && selectedType == Hourly
      ensures form == EmptyForm && !isSaving && deletingId == None
    {
      showAddDialog := false;
      editingIncome := None;
      selectedType := Hourly;
      form := EmptyForm;
      isSaving := false;
      deletingId := None;
    }

    /** `openAddDialog`, from the list behind the (closed) dialog. */
    method OpenAddDialog(t: IncomeType)
      requires Valid() && !showAddDialog
      modifies this
      ensures Valid() && showAddDialog && editingIncome == None
      ensures selectedType == t && form == EmptyForm
      ensures isSaving == old(isSaving) && deletingId == old(deletingId)
    {
      selectedType := t;
      form := EmptyForm;
      showAddDialog := true;
    }

    /** `openEditDialog`, from the list behind the (closed) dialog. */
    method OpenEditDialog(income: Income)
      requires Valid() && !showAddDialog
      modifies this
      ensures Valid() && showAddDialog && editingIncome == Some(income)
      ensures selectedType == TypeOf(income) && form == PrefillForm(income)
      ensures isSaving == old(isSaving) && deletingId == old(deletingId)
    {
      editingIncome := Some(income);
      selectedType := TypeOf(income);
      form := PrefillForm(income);
      showAddDialog := true;
    }

    /** The dialog's `onOpenChange`: ignored while saving; closing it ends any edit. */
    method DialogOpenChange(open: bool)
      requires Valid()
      modifies this
      ensures Valid()
      ensures old(isSaving) ==> showAddDialog == old(showAddDialog) && editingIncome == old(editingIncome)
      ensures !old(isSaving) ==> showAddDialog == open && editingIncome == (if open then old(editingIncome) else None)
      ensures selectedType == old(selectedType) && form == old(form) && isSaving == old(isSaving)
      ensures deletingId == old(deletingId)
    {
      if !isSaving {
        showAddDialog := open;
        if !open {
          editingIncome := None;
        }
      }
    }

    /** The cancel button, disabled while saving. */
    method Cancel()
      requires Valid() && !isSaving
      modifies this
      ensures Valid() && !showAddDialog && editingIncome == None
      ensures selectedType == old(selectedType) && form == old(form) && !isSaving
      ensures deletingId == old(deletingId)
    {
      showAddDialog := false;
      editingIncome := None;
    }

    /**
     * `handleSave`. Without a positive amount nothing changes. Otherwise the edited
     * income is replaced by EditedIncome, or NewIncome is added under `newId`, and the
     * dialog closes with no income being edited.
     */
    method HandleSave(store: Store.AppStore, newId: string)
      requires Valid()
      modifies this, store
      ensures Valid()
      ensures ParseForm(old(form)).amount == 0 ==>
        store.state == old(store.state) && showAddDialog == old(showAddDialog)
        && editingIncome == old(editingIncome) && isSaving == old(isSaving)
      ensures ParseForm(old(form)).amount > 0 && old(editingIncome).Some? ==>
        var e := old(editingIncome).value;
        store.state == old(store.state).(incomes := Store.UpdateById(old(store.state.incomes), e.id, EditedIncome(e, old(form))))
      ensures ParseForm(old(form)).amount > 0 && old(editingIncome).None? ==>
        store.state == old(store.state).(incomes := old(store.state.incomes) + [NewIncome(old(selectedType), old(form), newId)])
      ensures ParseForm(old(form)).amount > 0 ==> !showAddDialog && editingIncome == None && !isSaving
      ensures selectedType == old(selectedType) && form == old(form) && deletingId == old(deletingId)
    {
      var amount := ParseForm(form).amount;
      if amount <= 0 {
        return;
      }
      isSaving := true;
      if editingIncome.Some? {
        var e := editingIncome.value;
        store.UpdateIncome(e.id, EditedIncome(e, form));
      } else {
        store.AddIncome(NewIncome(selectedType, form, newId));
      }
      showAddDialog := false;
      editingIncome := None;
      isSaving := false;
    }

    /** `handleDelete`: the income leaves the store and no row is marked as deleting. */
    method HandleDelete(store: Store.AppStore, id: string)
      modifies this, store
      ensures store.state == old(store.state).(incomes := Store.RemoveById(old(store.state.incomes), id))
      ensures deletingId == None
      ensures showAddDialog == old(showAddDialog) && editingIncome == old(editingIncome)
      ensures selectedType == old(selectedType) && form == old(form) && isSaving == old(isSaving)
    {
      deletingId := Some(id);
      store.RemoveIncome(id);
      deletingId := None;
    }

    /** `handleLogout`. */
    method HandleLogout(store: Store.AppStore)
      modifies store
      ensures store.state == Store.InitialState.(isOnboarded := true)
    {
      store.Logout();
    }
  }
}
