/**
 * components/app/ReportsPage.tsx: the savings report. Savings are grouped by their
 * `month` text into a dictionary of totals (its keys kept in order of first appearance,
 * as the dictionary enumerates them); the page shows the totals of the selected month,
 * the all-time totals and the first six groups.
 */
module Reports {
  import opened Wrappers
  import opened Strings
  import opened Types
  import Time

  datatype MonthTotals = MonthTotals(totalAmount: real, totalHours: real, count: nat)

  const NoTotals: MonthTotals := MonthTotals(0.0, 0.0, 0)

  function Plus(a: MonthTotals, b: MonthTotals): MonthTotals {
    MonthTotals(a.totalAmount + b.totalAmount, a.totalHours + b.totalHours, a.count + b.count)
  }

  /** What one saving adds to its month. */
  function One(s: Saving): MonthTotals {
    MonthTotals(s.amount, s.hours, 1)
  }

  // ---------------------------------------------------------------------------
  // The specification of the grouping

  /**
   * The totals of every saving in the list. GroupsPartition proves the month groups add up
   * to it, and AllTimeStats returns it.
   */
  function Overall(savings: seq<Saving>): MonthTotals {
    if savings == [] then NoTotals
    else Plus(Overall(savings[..|savings| - 1]), One(savings[|savings| - 1]))
  }

  /** The totals of the savings whose month is exactly `month`. */
  function TotalsOf(savings: seq<Saving>, month: string): MonthTotals {
    if savings == [] then NoTotals
    else
      var last := savings[|savings| - 1];
      Plus(TotalsOf(savings[..|savings| - 1], month), if last.month == month then One(last) else NoTotals)
  }

  /** The distinct months of the savings, in order of first appearance. */
  function MonthKeys(savings: seq<Saving>): (keys: seq<string>)
    ensures forall i, j :: 0 <= i < j < |keys| ==> keys[i] != keys[j]
  {
    if savings == [] then []
    else
      var keys := MonthKeys(savings[..|savings| - 1]);
      var last := savings[|savings| - 1];
      if last.month in keys then keys else keys + [last.month]
  }

  /** The keys are exactly the months that some saving carries. */
  lemma {:induction false} MonthKeysMembers(savings: seq<Saving>)
    ensures forall m :: m in MonthKeys(savings) <==> exists k :: 0 <= k < |savings| && savings[k].month == m
  {
    if savings != [] {
      var init := savings[..|savings| - 1];
      MonthKeysMembers(init);
      assert forall k :: 0 <= k < |init| ==> init[k] == savings[k];
    }
  }

  lemma TotalsOfStep(savings: seq<Saving>, i: int, month: string)
    requires 0 <= i < |savings|
    ensures TotalsOf(savings[..i + 1], month) ==
      if savings[i].month == month then Plus(TotalsOf(savings[..i], month), One(savings[i]))
      else TotalsOf(savings[..i], month)
  {
    assert savings[..i + 1][..i] == savings[..i];
  }

  /** A month's count is positive exactly when some saving carries that month. */
  lemma {:induction false} TotalsOfPresent(savings: seq<Saving>, month: string)
    ensures TotalsOf(savings, month).count > 0 <==> month in MonthKeys(savings)
  {
    if savings != [] {
      TotalsOfPresent(savings[..|savings| - 1], month);
    }
  }

  /** The sum of the totals of the listed months. */
  function GroupSum(keys: seq<string>, savings: seq<Saving>): MonthTotals {
    if keys == [] then NoTotals
    else Plus(GroupSum(keys[..|keys| - 1], savings), TotalsOf(savings, keys[|keys| - 1]))
  }

  /** One more saving adds itself to the group sum of distinct months when its month is listed. */
  lemma {:induction false} GroupSumStep(keys: seq<string>, savings: seq<Saving>, s: Saving)
    requires forall i, j :: 0 <= i < j < |keys| ==> keys[i] != keys[j]
    ensures GroupSum(keys, savings + [s]) == Plus(GroupSum(keys, savings), if s.month in keys then One(s) else NoTotals)
  {
    var savings' := savings + [s];
    assert savings'[..|savings'| - 1] == savings;
    if keys != [] {
      var init := keys[..|keys| - 1];
      GroupSumStep(init, savings, s);
      assert s.month in keys <==> s.month in init || s.month == keys[|keys| - 1];
      assert keys[|keys| - 1] !in init by {
        forall i | 0 <= i < |init| ensures init[i] != keys[|keys| - 1] {
          assert init[i] == keys[i];
        }
      }
    }
  }

  /** Adding the totals of a month that has no saving changes nothing. */
  lemma GroupSumAbsent(keys: seq<string>, savings: seq<Saving>, month: string)
    requires month !in MonthKeys(savings)
    ensures GroupSum(keys + [month], savings) == GroupSum(keys, savings)
  {
    TotalsOfPresent(savings, month);
    ZeroCountZeroTotals(savings, month);
    assert (keys + [month])[..|keys|] == keys;
  }

  /**
   * The groups partition the savings: summed over the months, the totals are those of
   * all savings, and the counts add up to the number of savings.
   */
  lemma {:induction false} GroupsPartition(savings: seq<Saving>)
    ensures GroupSum(MonthKeys(savings), savings) == Overall(savings)
    ensures Overall(savings).count == |savings|
  {
    if savings != [] {
      var init := savings[..|savings| - 1];
      var s := savings[|savings| - 1];
      assert savings == init + [s];
      GroupsPartition(init);
      var keys := MonthKeys(init);
      GroupSumStep(keys, init, s);
      if s.month !in keys {
        GroupSumStep(keys + [s.month], init, s);
        GroupSumAbsent(keys, init, s.month);
        assert s.month in keys + [s.month];
        assert GroupSum(keys + [s.month], savings) == Plus(GroupSum(keys + [s.month], init), One(s));
        assert forall i, j :: 0 <= i < j < |keys + [s.month]| ==> (keys + [s.month])[i] != (keys + [s.month])[j];
      }
    }
  }

  // ---------------------------------------------------------------------------
  // The page's computations

  /**
   * `monthlySummary`: a dictionary from month text to the totals of its savings, with
   * its keys in the order the dictionary enumerates them (first appearance).
   */
  method MonthlySummary(savings: seq<Saving>) returns (keys: seq<string>, summary: map<string, MonthTotals>)
    ensures keys == MonthKeys(savings)
    ensures forall m :: m in summary <==> m in keys
    ensures forall m :: m in summary ==> summary[m] == TotalsOf(savings, m)
  {
    keys := [];
    summary := map[];
    for i := 0 to |savings|
      invariant SummaryOf(savings[..i], keys, summary)
    {
      var saving := savings[i];
      ghost var (keys0, summary0) := (keys, summary);
      if saving.month !in summary {
        summary := summary[saving.month := NoTotals];
        keys := keys + [saving.month];
      }
      summary := summary[saving.month := Plus(summary[saving.month], One(saving))];
      SummaryStep(savings, i, keys0, summary0);
    }
    assert savings[..|savings|] == savings;
  }

  /**
   * `keys` and `summary` are the grouping of `savings`: the invariant of MonthlySummary and
   * what AllTimeStats relies on.
   */
  ghost predicate SummaryOf(savings: seq<Saving>, keys: seq<string>, summary: map<string, MonthTotals>) {
    && keys == MonthKeys(savings)
    && (forall m :: m in summary <==> m in keys)
    && (forall m :: m in summary ==> summary[m] == TotalsOf(savings, m))
  }

  lemma MonthKeysStep(savings: seq<Saving>, i: int)
    requires 0 <= i < |savings|
    ensures var keys := MonthKeys(savings[..i]);
      MonthKeys(savings[..i + 1]) == if savings[i].month in keys then keys else keys + [savings[i].month]
  {
    assert savings[..i + 1][..i] == savings[..i];
  }

  /** One iteration of MonthlySummary extends the grouping by one saving. */
  lemma SummaryStep(savings: seq<Saving>, i: int, keys: seq<string>, summary: map<string, MonthTotals>)
    requires 0 <= i < |savings| && SummaryOf(savings[..i], keys, summary)
    ensures var month := savings[i].month;
      var current := if month in summary then summary[month] else NoTotals;
      SummaryOf(savings[..i + 1],
                if month in summary then keys else keys + [month],
                summary[month := Plus(current, One(savings[i]))])
  {
    var month := savings[i].month;
    var summary' := summary[month := Plus(if month in summary then summary[month] else NoTotals, One(savings[i]))];
    var keys' := if month in summary then keys else keys + [month];
    MonthKeysStep(savings, i);
    forall m ensures m in summary' <==> m in keys' {
      assert m in keys' <==> m in keys || m == month;
    }
    SummaryValuesStep(savings, i, summary);
  }

  /** The totals after one more saving: its month grows by it, the others stay. */
  lemma SummaryValuesStep(savings: seq<Saving>, i: int, summary: map<string, MonthTotals>)
    requires 0 <= i < |savings|
    requires forall m :: m in summary <==> m in MonthKeys(savings[..i])
    requires forall m :: m in summary ==> summary[m] == TotalsOf(savings[..i], m)
    ensures var month := savings[i].month;
      var summary' := summary[month := Plus(if month in summary then summary[month] else NoTotals, One(savings[i]))];
      forall m :: m in summary' ==> summary'[m] == TotalsOf(savings[..i + 1], m)
  {
    var month := savings[i].month;
    TotalsOfPresent(savings[..i], month);
    if month !in summary {
      ZeroCountZeroTotals(savings[..i], month);
    }
    var summary' := summary[month := Plus(if month in summary then summary[month] else NoTotals, One(savings[i]))];
    forall m | m in summary' ensures summary'[m] == TotalsOf(savings[..i + 1], m) {
      TotalsOfStep(savings, i, m);
    }
  }

  /** `currentMonthData`: the selected month's totals, zeros when it has no saving. */
  function CurrentMonthData(summary: map<string, MonthTotals>, selected: string): MonthTotals {
    if selected in summary then summary[selected] else NoTotals
  }

  /** The selected month's totals are those of the savings of exactly that month. */
  lemma CurrentMonthDataIsTotals(savings: seq<Saving>, summary: map<string, MonthTotals>, selected: string)
    requires forall m :: m in summary <==> m in MonthKeys(savings)
    requires forall m :: m in summary ==> summary[m] == TotalsOf(savings, m)
    ensures CurrentMonthData(summary, selected) == TotalsOf(savings, selected)
  {
    TotalsOfPresent(savings, selected);
    if selected !in summary {
      ZeroCountZeroTotals(savings, selected);
    }
  }

  /** A month without savings has zero totals. */
  lemma {:induction false} ZeroCountZeroTotals(savings: seq<Saving>, month: string)
    requires TotalsOf(savings, month).count == 0
    ensures TotalsOf(savings, month) == NoTotals
  {
    if savings != [] {
      ZeroCountZeroTotals(savings[..|savings| - 1], month);
    }
  }

  /** `allTimeStats`: the totals of every group, summed in the dictionary's order. */
  method AllTimeStats(keys: seq<string>, summary: map<string, MonthTotals>, ghost savings: seq<Saving>)
    returns (totalAmount: real, totalHours: real, totalCount: nat)
    requires keys == MonthKeys(savings)
    requires forall m :: m in keys ==> m in summary && summary[m] == TotalsOf(savings, m)
    ensures MonthTotals(totalAmount, totalHours, totalCount) == Overall(savings)
    ensures totalCount == |savings|
  {
    totalAmount, totalHours, totalCount := 0.0, 0.0, 0;
    for i := 0 to |keys|
      invariant MonthTotals(totalAmount, totalHours, totalCount) == GroupSum(keys[..i], savings)
    {
      assert keys[..i + 1][..i] == keys[..i];
      var month := summary[keys[i]];
      totalAmount := totalAmount + month.totalAmount;
      totalHours := totalHours + month.totalHours;
      totalCount := totalCount + month.count;
    }
    assert keys[..|keys|] == keys;
    GroupsPartition(savings);
  }

  /** `months[12]?.value || months[0]?.value`: the initially selected month. */
  function InitialSelectedMonth(months: seq<Time.MonthOption>): Option<string> {
    if |months| > 12 && months[12].value != "" then Some(months[12].value)
    else if |months| > 0 then Some(months[0].value)
    else None
  }

  /** The selection list has twelve entries, so the initial choice is always its first, the current month. */
  lemma InitialSelectionIsCurrentMonth(months: seq<Time.MonthOption>)
    requires |months| == 12
    ensures InitialSelectedMonth(months) == Some(months[0].value)
  {
  }

  /**
   * The shape of a month label ("<month name> <Persian year>"): it starts with a letter
   * of the Arabic block and has no `-` anywhere.
   */
  predicate LabelShaped(text: string) {
    && |text| > 0 && '\U{0621}' <= text[0] <= '\U{06FF}'
    && forall i :: 0 <= i < |text| ==> text[i] != '-'
  }

  /** Every label of the month list, and so every month the home page records, is label-shaped. */
  lemma MonthLabelShaped(y: nat, m: int)
    requires 1 <= m <= 12
    ensures LabelShaped(Time.MonthLabel(y, m))
  {
    Time.LabelHasNoDash(y, m);
    var name := Time.PersianMonths[m - 1];
    assert '\U{0621}' <= name[0] <= '\U{06FF}';
    assert Time.MonthLabel(y, m)[0] == name[0];
  }

  /** Savings whose months are all label-shaped, as the home page records them. */
  predicate LabelKeyed(savings: seq<Saving>) {
    forall k :: 0 <= k < |savings| ==> LabelShaped(savings[k].month)
  }

  /**
   * The selected month is a "YYYY-MM" value while recorded savings carry month labels,
   * so the selected month's totals are always zero.
   */
  lemma SelectedMonthNeverMatches(savings: seq<Saving>, y: int, m: int)
    requires LabelKeyed(savings)
    ensures TotalsOf(savings, Time.MonthValue(y, m)) == NoTotals
  {
    var value := Time.MonthValue(y, m);
    assert value[|DecimalString(y)|] == '-';
    forall k | 0 <= k < |savings| ensures savings[k].month != value {
      assert LabelShaped(savings[k].month);
    }
    NoSavingOfMonth(savings, value);
  }

  lemma {:induction false} NoSavingOfMonth(savings: seq<Saving>, month: string)
    requires forall k :: 0 <= k < |savings| ==> savings[k].month != month
    ensures TotalsOf(savings, month) == NoTotals
  {
    if savings != [] {
      NoSavingOfMonth(savings[..|savings| - 1], month);
    }
  }

  /** One row of the monthly breakdown: the month as rendered, and its totals. */
  datatype BreakdownRow = BreakdownRow(monthText: string, totals: MonthTotals)

  /** `Object.entries(monthlySummary).slice(0, 6)`, each month rendered by formatMonthValueToPersian. */
  function Breakdown(keys: seq<string>, summary: map<string, MonthTotals>): (rows: seq<BreakdownRow>)
    requires forall m :: m in keys ==> m in summary
    ensures |rows| == if |keys| < 6 then |keys| else 6
    ensures forall i :: 0 <= i < |rows| ==>
      rows[i] == BreakdownRow(Time.FormatMonthValueToPersian(keys[i]), summary[keys[i]])
  {
    var n := if |keys| < 6 then |keys| else 6;
    seq(n, i requires 0 <= i < n => BreakdownRow(Time.FormatMonthValueToPersian(keys[i]), summary[keys[i]]))
  }

  /**
   * A label-shaped month has no `-`, so it is not split, and it starts with no sign,
   * space or digit, so parsing it finds no number: it renders as "undefined NaN".
   */
  lemma LabelRendersUndefined(text: string)
    requires LabelShaped(text)
    ensures Time.FormatMonthValueToPersian(text) == "undefined NaN"
  {
    forall k ensures !OccursAt(text, "-", k) {
      if 0 <= k < |text| {
        assert text[k..k + 1] == [text[k]];
      }
    }
    assert Time.SplitYearMonth(text) == (text, None);
    NoNumberAhead(text);
  }

  /** A text starting with a letter holds no number for `parseInt`. */
  lemma NoNumberAhead(text: string)
    requires LabelShaped(text)
    ensures Time.ParseInt(text) == Time.NaN
  {
    assert !IsJsWhitespace(text[0]) && !IsAsciiDigit(text[0]);
    assert Time.TrimStart(text) == text;
    assert LeadingDigits(text) == [];
  }

  /**
   * The breakdown of label-keyed savings renders every month as "undefined NaN": the
   * labels are handed to the parser of "YYYY-MM" values.
   */
  lemma BreakdownOfLabels(savings: seq<Saving>, summary: map<string, MonthTotals>)
    requires LabelKeyed(savings)
    requires forall m :: m in MonthKeys(savings) ==> m in summary
    ensures forall row :: row in Breakdown(MonthKeys(savings), summary) ==> row.monthText == "undefined NaN"
  {
    var keys := MonthKeys(savings);
    var rows := Breakdown(keys, summary);
    MonthKeysMembers(savings);
    forall i | 0 <= i < |rows| ensures rows[i].monthText == "undefined NaN" {
      assert keys[i] in keys;
      var k :| 0 <= k < |savings| && savings[k].month == keys[i];
      LabelRendersUndefined(savings[k].month);
    }
  }
}
