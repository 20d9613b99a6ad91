/**
 * components/app/HomePage.tsx: the user types a price; the page shows how much working
 * time it costs at the average hourly rate and lets the user either spend it or save it.
 *
 * Today's date, the new saving's id and timestamp, whether the browser is online and the
 * server's reply are parameters of the save handler.
 */
module Home {
  import opened Wrappers
  import opened Types
  import opened IncomeForm
  import Store
  import Sync
  import Time
  import Strings

  /**
   * `hoursNeeded`: the hours of work the typed amount costs, present only when the field
   * is non-empty, there is a positive rate and the amount read back is positive.
   */
  function HoursNeeded(amount: string, rate: real): (r: Option<real>)
    ensures r.Some? <==> amount != "" && rate > 0.0 && ParseFormNumber(amount) > 0
    ensures r.Some? ==> r.value > 0.0 && r.value == Time.CalculateHoursNeeded(ParseFormNumber(amount) as real, rate)
  {
    if amount != "" && rate > 0.0 then
      var numAmount := ParseFormNumber(amount);
      if numAmount > 0 then Some(numAmount as real / rate) else None
    else None
  }

  /** The rate the page uses: the store's average over its incomes. */
  function PageRate(incomes: seq<Income>): real {
    Store.AverageRate(incomes)
  }

  /**
   * `formattedTime`: the working time of `hoursNeeded` under the store's schedule, or
   * nothing without hoursNeeded. Its total is hoursNeeded rounded, and its text carries the
   * " کاری" suffix exactly when that total is positive.
   */
  function FormattedTime(amount: string, incomes: seq<Income>): (r: Option<Time.WorkingTime>)
    ensures r.Some? <==> HoursNeeded(amount, PageRate(incomes)).Some?
    ensures r.Some? ==> r.value.totalHours == Time.Round(HoursNeeded(amount, PageRate(incomes)).value)
    ensures r.Some? ==> |r.value.text| > 0 && (Time.EndsWithWorkingSuffix(r.value.text) <==> r.value.totalHours > 0)
  {
    match HoursNeeded(amount, PageRate(incomes))
    case None => None
    case Some(hours) =>
      assert Time.Round(hours) >= 0 by { Time.RoundOfSmall(0.0); }
      Time.WorkingSuffixExactly(hours, Store.HoursPerDayOf(incomes) as real, Store.DaysPerWeekOf(incomes));
      Some(Time.FormatHoursToPersianWorking(hours, Store.HoursPerDayOf(incomes) as real, Store.DaysPerWeekOf(incomes)))
  }

  /**
   * A schedule of 0 working days a week (see Store.ZeroDaysPerWeek): a price worth at
   * least one working day shows as "Infinity years of work"; a smaller one shows as it
   * would under any working week.
   */
  lemma NoWorkDaysDisplay(amount: string, incomes: seq<Income>, daysPerWeek: int)
    requires Store.DaysPerWeekOf(incomes) == 0 && daysPerWeek > 0
    requires HoursNeeded(amount, PageRate(incomes)).Some?
    ensures var hours := HoursNeeded(amount, PageRate(incomes)).value;
      var perDay := Store.HoursPerDayOf(incomes) as real;
      && (hours >= perDay ==> FormattedTime(amount, incomes) == Some(Time.WorkingTime("Infinity سال کاری", Time.Round(hours))))
      && (hours < perDay ==>
            FormattedTime(amount, incomes) == Some(Time.FormatHoursToPersianWorking(hours, perDay, daysPerWeek)))
  {
    var hours := HoursNeeded(amount, PageRate(incomes)).value;
    var perDay := Store.HoursPerDayOf(incomes) as real;
    assert FormattedTime(amount, incomes) == Some(Time.FormatHoursToPersianWorking(hours, perDay, 0));
    Time.NoWorkDays(hours, perDay, daysPerWeek);
  }

  /** The result panel and the spend/save buttons appear exactly when hoursNeeded is positive. */
  predicate ShowsActions(amount: string, incomes: seq<Income>) {
    var h := HoursNeeded(amount, PageRate(incomes));
    h.Some? && h.value > 0.0
  }

  /**
   * One monthly income of 2 working days a month and the price 1,000: the buttons are
   * shown, and the 16 hours of work read as "Infinity years of work".
   */
  lemma InfiniteYearsExample()
    ensures var incomes := [MonthlyIncome("m", 1000, 16, 2, 8)];
      ShowsActions("1,000", incomes) && FormattedTime("1,000", incomes) == Some(Time.WorkingTime("Infinity سال کاری", 16))
  {
    var incomes := [MonthlyIncome("m", 1000, 16, 2, 8)];
    Store.ZeroDaysPerWeek();
    ExampleRate();
    ThousandParses();
    assert HoursNeeded("1,000", PageRate(incomes)) == Some(16.0);
    assert Store.HoursPerDayOf(incomes) == 8;
    NoWorkDaysDisplay("1,000", incomes, 1);
    assert Time.Round(16.0) == 16;
  }

  lemma ExampleRate()
    ensures PageRate([MonthlyIncome("m", 1000, 16, 2, 8)]) == 1000.0 / 16.0
  {
    var incomes := [MonthlyIncome("m", 1000, 16, 2, 8)];
    assert Store.Rates(incomes) == [1000.0 / 16.0] by {
      assert incomes[..0] == [];
    }
    assert Store.Sum([1000.0 / 16.0]) == 1000.0 / 16.0 by {
      assert [1000.0 / 16.0][..0] == [];
    }
  }

  lemma ThousandParses()
    ensures ParseFormNumber("1,000") == 1000
  {
    assert RemoveCommas("1,000") == "1000";
    Strings.LeadingDigitsAll("1000");
    Strings.NatToStringValue(1000);
    assert Strings.NatToString(1000) == "1000";
  }

  class HomePage {
    var amount: string

    constructor ()
      ensures amount == ""
    {
      amount := "";
    }

    /** The amount field's `onChange`: the typed text, grouped by thousands. */
    method TypeAmount(typed: string)
      modifies this
      ensures amount == FormatNumberInput(typed)
      ensures RemoveCommas(amount) == KeepDigits(typed)
    {
      amount := FormatNumberInput(typed);
      FormatNumberInputDigits(typed);
    }

    /** `handleSpend`: nothing is recorded; the field is cleared. */
    method HandleSpend()
      modifies this
      ensures amount == ""
    {
      amount := "";
    }

    /**
     * `handleSave`. Without a positive amount or a working time nothing happens.
     * Otherwise a saving of the amount, its unrounded hours and the current Jalali month
     * label is added through the store (kept locally, and posted or queued as
     * Store.AppStore.AddSaving decides) and the field is cleared.
     */
    method HandleSave(store: Store.AppStore, pending: Sync.PendingSync, gy: int, gm: int, gd: int,
                      newId: string, createdAt: string, online: bool, serverReply: Sync.Reply)
      returns (saved: Option<Saving>)
      requires 1 <= gm <= 12 && 1 <= gd <= 31
      modifies this, store, pending
      ensures var hours := HoursNeeded(old(amount), PageRate(old(store.state.incomes)));
        saved.Some? <==> hours.Some?
      ensures saved.None? ==> store.state == old(store.state) && amount == old(amount) && pending.entry == old(pending.entry)
      ensures saved.Some? ==>
        && store.state == old(store.state).(savings := old(store.state.savings) + [saved.value])
        && saved.value.id == newId && saved.value.createdAt == createdAt
        && saved.value.amount == ParseFormNumber(old(amount)) as real
        && saved.value.hours == HoursNeeded(old(amount), PageRate(old(store.state.incomes))).value
        && (gy > 1600 ==> exists y, m :: y >= 978 && 1 <= m <= 12 && saved.value.month == Time.MonthLabel(y, m))
        && amount == ""
      ensures saved.Some? && old(store.SignedIn()) && !(online && Sync.Succeeded(serverReply)) ==>
        pending.Queue() == old(pending.Queue()) + [saved.value]
      ensures saved.Some? && (!old(store.SignedIn()) || (online && Sync.Succeeded(serverReply))) ==>
        pending.entry == old(pending.entry)
    {
      var numAmount := ParseFormNumber(amount);
      var hoursNeeded := HoursNeeded(amount, PageRate(store.state.incomes));
      if numAmount <= 0 || hoursNeeded.None? {
        return None;
      }
      var month := Time.CurrentPersianMonth(gy, gm, gd);
      var saving := Saving(newId, numAmount as real, hoursNeeded.value, month, createdAt);
      var _ := store.AddSaving(saving, pending, online, serverReply);
      amount := "";
      return Some(saving);
    }
  }
}
