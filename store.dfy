/**
 * store/appStore.ts: the application's persisted store and the helper hooks that
 * derive the average hourly rate and the working schedule from the incomes.
 *
 * The store is one object whose state record every action replaces with an updated
 * copy, as the store library's `set` merges a partial state into the current one.
 * Whether the browser is online and what the server answers are parameters.
 */
module Store {
  import opened Wrappers
  import opened Types
  import opened Sync
  import Time

  datatype StoreState = StoreState(
    isOnboarded: bool,
    incomes: seq<Income>,
    savings: seq<Saving>,
    user: Option<User>,
    token: Option<string>,
    isAuthenticated: bool,
    isLoading: bool)

  const InitialState: StoreState := StoreState(false, [], [], None, None, false, false)

  /** The JSON body of GET /api/sync: its `data` may be missing, and so may `data.savings`. */
  datatype SyncData = SyncData(savings: Option<seq<Saving>>)

  /** What `loadAllDataFromDatabase` receives: a thrown request, or the `success` and `data` of the reply. */
  datatype LoadReply = LoadThrew | LoadReplied(success: bool, data: Option<SyncData>)

  /** The savings a load installs: present exactly when the reply succeeded with data; a missing list is empty. */
  function LoadedSavings(reply: LoadReply): (r: Option<seq<Saving>>)
    ensures r.Some? <==> reply.LoadReplied? && reply.success && reply.data.Some?
  {
    match reply
    case LoadReplied(true, Some(data)) => Some(data.savings.GetOr([]))
    case _ => None
  }

  // ---------------------------------------------------------------------------
  // The income list operations

  /** `incomes.map(inc => inc.id === id ? update : inc)` for a complete replacement income. */
  function UpdateById(incomes: seq<Income>, id: string, update: Income): (r: seq<Income>)
    ensures |r| == |incomes|
    ensures forall k :: 0 <= k < |r| ==> r[k] == if incomes[k].id == id then update else incomes[k]
  {
    if incomes == [] then []
    else [if incomes[0].id == id then update else incomes[0]] + UpdateById(incomes[1..], id, update)
  }

  /** `incomes.filter(inc => inc.id !== id)`. */
  function RemoveById(incomes: seq<Income>, id: string): (r: seq<Income>)
    ensures |r| <= |incomes|
    ensures forall x :: x in r <==> x in incomes && x.id != id
  {
    if incomes == [] then []
    else (if incomes[0].id != id then [incomes[0]] else []) + RemoveById(incomes[1..], id)
  }

  /** Removing commutes with concatenation: the kept incomes stay in their order. */
  lemma {:induction false} RemoveByIdConcat(a: seq<Income>, b: seq<Income>, id: string)
    ensures RemoveById(a + b, id) == RemoveById(a, id) + RemoveById(b, id)
  {
    if a == [] {
      assert a + b == b;
    } else {
      assert (a + b)[1..] == a[1..] + b;
      RemoveByIdConcat(a[1..], b, id);
    }
  }

  /** Removing an id that no income carries changes nothing. */
  lemma {:induction false} RemoveAbsentId(incomes: seq<Income>, id: string)
    requires forall k :: 0 <= k < |incomes| ==> incomes[k].id != id
    ensures RemoveById(incomes, id) == incomes
  {
    if incomes != [] {
      RemoveAbsentId(incomes[1..], id);
    }
  }

  /** Adding an income and then removing its id removes exactly the incomes with that id. */
  lemma RemoveAfterAdd(incomes: seq<Income>, income: Income)
    ensures RemoveById(incomes + [income], income.id) == RemoveById(incomes, income.id)
  {
    RemoveByIdConcat(incomes, [income], income.id);
  }

  /** Removing twice is removing once. */
  lemma RemoveByIdIdempotent(incomes: seq<Income>, id: string)
    ensures RemoveById(RemoveById(incomes, id), id) == RemoveById(incomes, id)
  {
    var r := RemoveById(incomes, id);
    forall k | 0 <= k < |r| ensures r[k].id != id {
      assert r[k] in r;
    }
    RemoveAbsentId(r, id);
  }

  /** Updating with an income of the same id twice is updating once. */
  lemma UpdateByIdIdempotent(incomes: seq<Income>, id: string, update: Income)
    requires update.id == id
    ensures UpdateById(UpdateById(incomes, id, update), id, update) == UpdateById(incomes, id, update)
  {
  }

  // ---------------------------------------------------------------------------
  // useAverageHourlyRate

  /** What one income adds to the average: its hourly rate, when it has one. */
  function RateOf(i: Income): Option<real> {
    if i.HourlyIncome? then Some(i.amount as real)
    else if i.hours > 0 then Some(i.amount as real / i.hours as real)
    else None
  }

  /** The rates of the incomes that have one, in order. */
  function Rates(incomes: seq<Income>): seq<real> {
    if incomes == [] then []
    else
      var last := RateOf(incomes[|incomes| - 1]);
      Rates(incomes[..|incomes| - 1]) + (if last.Some? then [last.value] else [])
  }

  function Sum(xs: seq<real>): real {
    if xs == [] then 0.0 else Sum(xs[..|xs| - 1]) + xs[|xs| - 1]
  }

  /**
   * The mean hourly rate over the incomes that have one, and 0 when none has.
   * AverageRateBounds and AverageRatePermutation state its properties, and the method
   * AverageHourlyRate computes it.
   */
  function AverageRate(incomes: seq<Income>): real {
    var rates := Rates(incomes);
    if |rates| > 0 then Sum(rates) / |rates| as real else 0.0
  }

  /** `useAverageHourlyRate`. */
  method AverageHourlyRate(incomes: seq<Income>) returns (rate: real)
    ensures rate == AverageRate(incomes)
  {
    if |incomes| == 0 {
      return 0.0;
    }
    var totalHourlyRate := 0.0;
    var count := 0;
    for i := 0 to |incomes|
      invariant totalHourlyRate == Sum(Rates(incomes[..i]))
      invariant count == |Rates(incomes[..i])|
    {
      RatesStep(incomes, i);
      var income := incomes[i];
      if income.HourlyIncome? {
        totalHourlyRate := totalHourlyRate + income.amount as real;
        count := count + 1;
      } else if income.hours > 0 {
        totalHourlyRate := totalHourlyRate + income.amount as real / income.hours as real;
        count := count + 1;
      }
    }
    assert incomes[..|incomes|] == incomes;
    rate := if count > 0 then totalHourlyRate / count as real else 0.0;
  }

  /** One more income adds its rate, if it has one, to the sum and the count. */
  lemma RatesStep(incomes: seq<Income>, i: int)
    requires 0 <= i < |incomes|
    ensures Sum(Rates(incomes[..i + 1])) == Sum(Rates(incomes[..i])) + RateOf(incomes[i]).GetOr(0.0)
    ensures |Rates(incomes[..i + 1])| == |Rates(incomes[..i])| + (if RateOf(incomes[i]).Some? then 1 else 0)
  {
    assert incomes[..i + 1][..i] == incomes[..i];
    var rates := Rates(incomes[..i]);
    var rate := RateOf(incomes[i]);
    if rate.Some? {
      assert Rates(incomes[..i + 1]) == rates + [rate.value];
      assert (rates + [rate.value])[..|rates|] == rates;
    } else {
      assert Rates(incomes[..i + 1]) == rates + [];
      assert rates + [] == rates;
    }
  }

  lemma {:induction false} RatesConcat(a: seq<Income>, b: seq<Income>)
    ensures Rates(a + b) == Rates(a) + Rates(b)
  {
    if b == [] {
      assert a + b == a;
    } else {
      var b' := b[..|b| - 1];
      assert (a + b)[..|a + b| - 1] == a + b';
      RatesConcat(a, b');
    }
  }

  lemma {:induction false} SumConcat(xs: seq<real>, ys: seq<real>)
    ensures Sum(xs + ys) == Sum(xs) + Sum(ys)
  {
    if ys == [] {
      assert xs + ys == xs;
    } else {
      var ys' := ys[..|ys| - 1];
      assert (xs + ys)[..|xs + ys| - 1] == xs + ys';
      SumConcat(xs, ys');
    }
  }

  /** Taking one income out of a list removes exactly its own rate from the count and the total. */
  lemma RatesWithout(before: seq<Income>, x: Income, after: seq<Income>)
    ensures |Rates(before + [x] + after)| == |Rates(before + after)| + |Rates([x])|
    ensures Sum(Rates(before + [x] + after)) == Sum(Rates(before + after)) + Sum(Rates([x]))
  {
    RatesConcat(before + [x], after);
    RatesConcat(before, [x]);
    RatesConcat(before, after);
    SumConcat(Rates(before) + Rates([x]), Rates(after));
    SumConcat(Rates(before), Rates([x]));
    SumConcat(Rates(before), Rates(after));
  }

  /** Removing the same element from two permutations of each other leaves permutations. */
  lemma MultisetWithout(init: seq<Income>, x: Income, before: seq<Income>, after: seq<Income>)
    requires multiset(init + [x]) == multiset(before + [x] + after)
    ensures multiset(init) == multiset(before + after)
  {
    calc {
      multiset(init) + multiset{x};
      multiset(init + [x]);
      multiset(before + [x] + after);
      multiset(before) + multiset{x} + multiset(after);
      multiset(before + after) + multiset{x};
    }
    forall e ensures multiset(init)[e] == multiset(before + after)[e] {
      assert (multiset(init) + multiset{x})[e] == (multiset(before + after) + multiset{x})[e];
    }
  }

  /** Reordering the incomes changes neither how many rates are counted nor their total. */
  lemma {:induction false} RatesPermutation(xs: seq<Income>, ys: seq<Income>)
    requires multiset(xs) == multiset(ys)
    ensures |Rates(xs)| == |Rates(ys)| && Sum(Rates(xs)) == Sum(Rates(ys))
    decreases |xs|
  {
    if xs == [] {
      assert |multiset(ys)| == 0;
    } else {
      var init, x := xs[..|xs| - 1], xs[|xs| - 1];
      assert xs == init + [x];
      assert x in multiset(ys);
      var j :| 0 <= j < |ys| && ys[j] == x;
      var before, after := ys[..j], ys[j + 1..];
      assert ys == before + [x] + after;
      MultisetWithout(init, x, before, after);
      RatesPermutation(init, before + after);
      RatesConcat(init, [x]);
      SumConcat(Rates(init), Rates([x]));
      RatesWithout(before, x, after);
    }
  }

  /** The average hourly rate does not depend on the order of the incomes. */
  lemma AverageRatePermutation(xs: seq<Income>, ys: seq<Income>)
    requires multiset(xs) == multiset(ys)
    ensures AverageRate(xs) == AverageRate(ys)
  {
    RatesPermutation(xs, ys);
  }

  /** Every rate counted comes from one of the incomes. */
  lemma {:induction false} RatesFromIncomes(incomes: seq<Income>)
    ensures forall x :: x in Rates(incomes) ==> exists k :: 0 <= k < |incomes| && RateOf(incomes[k]) == Some(x)
  {
    if incomes != [] {
      var init := incomes[..|incomes| - 1];
      RatesFromIncomes(init);
      forall x | x in Rates(incomes)
        ensures exists k :: 0 <= k < |incomes| && RateOf(incomes[k]) == Some(x)
      {
        if x in Rates(init) {
          var k :| 0 <= k < |init| && RateOf(init[k]) == Some(x);
          assert incomes[k] == init[k];
        } else {
          assert RateOf(incomes[|incomes| - 1]) == Some(x);
        }
      }
    }
  }

  /** One more value within the bounds keeps the sum within the bounds times the count. */
  lemma StepBounds(lo: real, hi: real, count: real, sum: real, x: real)
    requires lo * count <= sum <= hi * count && lo <= x <= hi
    ensures lo * (count + 1.0) <= sum + x <= hi * (count + 1.0)
  {
    assert lo * (count + 1.0) == lo * count + lo;
    assert hi * (count + 1.0) == hi * count + hi;
  }

  /** Values within bounds sum to within the bounds times their number. */
  lemma {:induction false} SumBounds(xs: seq<real>, lo: real, hi: real)
    requires forall k :: 0 <= k < |xs| ==> lo <= xs[k] <= hi
    ensures lo * |xs| as real <= Sum(xs) <= hi * |xs| as real
  {
    if xs != [] {
      var init := xs[..|xs| - 1];
      SumBounds(init, lo, hi);
      StepBounds(lo, hi, |init| as real, Sum(init), xs[|xs| - 1]);
    }
  }

  /** A quotient by a positive count lies between bounds the dividend meets times the count. */
  lemma QuotientBounds(sum: real, n: real, lo: real, hi: real)
    requires n > 0.0 && lo * n <= sum <= hi * n
    ensures lo <= sum / n <= hi
  {
    var q := sum / n;
    assert q * n == sum;
    if lo <= q {
    } else {
      Time.MulStrictMonotone(q, lo, n);
    }
    if q <= hi {
    } else {
      Time.MulStrictMonotone(hi, q, n);
    }
  }

  /**
   * The average hourly rate lies between any bounds on the rates of the incomes that
   * have one; with none, it is 0.
   */
  lemma AverageRateBounds(incomes: seq<Income>, lo: real, hi: real)
    requires forall k :: 0 <= k < |incomes| && RateOf(incomes[k]).Some? ==> lo <= RateOf(incomes[k]).value <= hi
    ensures |Rates(incomes)| > 0 ==> lo <= AverageRate(incomes) <= hi
    ensures |Rates(incomes)| == 0 ==> AverageRate(incomes) == 0.0
  {
    var rates := Rates(incomes);
    RatesWithin(incomes, lo, hi);
    SumBounds(rates, lo, hi);
    if |rates| > 0 {
      QuotientBounds(Sum(rates), |rates| as real, lo, hi);
    }
  }

  /** Bounds on the incomes' rates bound every rate counted. */
  lemma {:induction false} RatesWithin(incomes: seq<Income>, lo: real, hi: real)
    requires forall k :: 0 <= k < |incomes| && RateOf(incomes[k]).Some? ==> lo <= RateOf(incomes[k]).value <= hi
    ensures forall k :: 0 <= k < |Rates(incomes)| ==> lo <= Rates(incomes)[k] <= hi
  {
    if incomes != [] {
      var init := incomes[..|incomes| - 1];
      forall k | 0 <= k < |init| && RateOf(init[k]).Some? ensures lo <= RateOf(init[k]).value <= hi {
        assert init[k] == incomes[k];
      }
      RatesWithin(init, lo, hi);
    }
  }

  /** With every income paid at the same hourly rate, the average is that rate. */
  lemma AverageOfEqualRates(incomes: seq<Income>, rate: real)
    requires exists k :: 0 <= k < |incomes| && RateOf(incomes[k]).Some?
    requires forall k :: 0 <= k < |incomes| && RateOf(incomes[k]).Some? ==> RateOf(incomes[k]).value == rate
    ensures AverageRate(incomes) == rate
  {
    AverageRateBounds(incomes, rate, rate);
    var k :| 0 <= k < |incomes| && RateOf(incomes[k]).Some?;
    RateOfCounted(incomes, k);
  }

  /** An income with a rate contributes to the average. */
  lemma {:induction false} RateOfCounted(incomes: seq<Income>, k: int)
    requires 0 <= k < |incomes| && RateOf(incomes[k]).Some?
    ensures |Rates(incomes)| > 0
  {
    var n := |incomes|;
    if k < n - 1 {
      assert incomes[..n - 1][k] == incomes[k];
      RateOfCounted(incomes[..n - 1], k);
    }
  }

  // ---------------------------------------------------------------------------
  // useWorkingDaysPerWeek

  const DaysPerWeekFallback: int := 6

  /** The working days per week an income tells, when it tells one. */
  function DaysInfo(i: Income): Option<int> {
    match i
    case WeeklyIncome(_, _, _, days, _) => if days > 0 then Some(days) else None
    case MonthlyIncome(_, _, _, days, _) => if days > 0 then Some(Time.Round(days as real / 4.33)) else None
    case ProjectIncome(_, _, _, days, _) => if days > 0 then Some(Time.Round(days as real / 4.33)) else None
    case _ => None
  }

  /**
   * The days per week of the first income that tells one, 6 when none does; the method
   * WorkingDaysPerWeek computes it with a loop.
   */
  function DaysPerWeekOf(incomes: seq<Income>): (days: int)
    ensures days >= 0
  {
    if incomes == [] then DaysPerWeekFallback
    else match DaysInfo(incomes[0])
      case Some(days) => days
      case None => DaysPerWeekOf(incomes[1..])
  }

  /** `useWorkingDaysPerWeek`. */
  method WorkingDaysPerWeek(incomes: seq<Income>) returns (days: int)
    ensures days == DaysPerWeekOf(incomes)
  {
    if |incomes| == 0 {
      return DaysPerWeekFallback;
    }
    for i := 0 to |incomes|
      invariant DaysPerWeekOf(incomes[i..]) == DaysPerWeekOf(incomes)
    {
      assert incomes[i..][1..] == incomes[i + 1..];
      var income := incomes[i];
      if income.WeeklyIncome? && income.daysPerWeek > 0 {
        return income.daysPerWeek;
      }
      if income.MonthlyIncome? && income.daysPerMonth > 0 {
        return Time.Round(income.daysPerMonth as real / 4.33);
      }
      if income.ProjectIncome? && income.avgDays > 0 {
        return Time.Round(income.avgDays as real / 4.33);
      }
    }
    return DaysPerWeekFallback;
  }

  /** No income before position `k` tells a schedule. */
  predicate FirstInformative(incomes: seq<Income>, k: int)
    requires 0 <= k <= |incomes|
  {
    forall j :: 0 <= j < k ==> DaysInfo(incomes[j]).None?
  }

  /**
   * The schedule comes from the first income that tells one: with none, 6 days; otherwise
   * what the first such income tells, whatever the later ones say.
   */
  lemma {:induction false} DaysFromFirstInformative(incomes: seq<Income>)
    ensures (forall k :: 0 <= k < |incomes| ==> DaysInfo(incomes[k]).None?) ==> DaysPerWeekOf(incomes) == 6
    ensures forall k :: 0 <= k < |incomes| && DaysInfo(incomes[k]).Some? && FirstInformative(incomes, k) ==>
      DaysPerWeekOf(incomes) == DaysInfo(incomes[k]).value
  {
    if incomes != [] {
      DaysFromFirstInformative(incomes[1..]);
      forall k | 0 <= k < |incomes| && DaysInfo(incomes[k]).Some? && FirstInformative(incomes, k)
        ensures DaysPerWeekOf(incomes) == DaysInfo(incomes[k]).value
      {
        if k > 0 {
          assert incomes[1..][k - 1] == incomes[k];
          assert forall j :: 0 <= j < k - 1 ==> incomes[1..][j] == incomes[j + 1];
        }
      }
    }
  }

  /** A monthly day count becomes 0 days per week exactly when it is at most 2. */
  lemma MonthlyDaysToWeekly(days: nat)
    ensures Time.Round(days as real / 4.33) == 0 <==> days <= 2
  {
    if days >= 3 {
      assert days as real / 4.33 >= 3.0 / 4.33;
    }
  }

  /**
   * As written, a monthly income of 2 working days a month makes the schedule 0 days
   * a week, which the working-time formatter then divides by.
   */
  lemma ZeroDaysPerWeek()
    ensures DaysPerWeekOf([MonthlyIncome("m", 1000, 16, 2, 8)]) == 0
  {
    MonthlyDaysToWeekly(2);
  }

  // ---------------------------------------------------------------------------
  // useWorkingHoursPerDay

  const HoursPerDayFallback: nat := 8

  /** The working hours per day an income tells, when it tells one. */
  function HoursInfo(i: Income): Option<nat> {
    match i
    case DailyIncome(_, _, hours) => if hours > 0 then Some(hours) else None
    case WeeklyIncome(_, _, _, _, perDay) => if perDay > 0 then Some(perDay) else None
    case MonthlyIncome(_, _, _, _, perDay) => if perDay > 0 then Some(perDay) else None
    case ProjectIncome(_, _, _, _, perDay) => if perDay > 0 then Some(perDay) else None
    case _ => None
  }

  /** The hours per day of the first income that tells them, 8 when none does; never 0. */
  function HoursPerDayOf(incomes: seq<Income>): (hours: nat)
    ensures hours > 0
  {
    if incomes == [] then HoursPerDayFallback
    else match HoursInfo(incomes[0])
      case Some(hours) => hours
      case None => HoursPerDayOf(incomes[1..])
  }

  /** The hours per day are the fallback 8 or what one of the incomes tells. */
  lemma {:induction false} HoursFromSomeIncome(incomes: seq<Income>)
    ensures HoursPerDayOf(incomes) == HoursPerDayFallback
      || exists k :: 0 <= k < |incomes| && HoursInfo(incomes[k]) == Some(HoursPerDayOf(incomes))
  {
    if incomes != [] && HoursInfo(incomes[0]).None? {
      var rest := incomes[1..];
      HoursFromSomeIncome(rest);
      if HoursPerDayOf(rest) != HoursPerDayFallback {
        var k :| 0 <= k < |rest| && HoursInfo(rest[k]) == Some(HoursPerDayOf(rest));
        assert incomes[k + 1] == rest[k];
      }
    }
  }

  /** `useWorkingHoursPerDay`. */
  method WorkingHoursPerDay(incomes: seq<Income>) returns (hours: nat)
    ensures hours == HoursPerDayOf(incomes)
  {
    if |incomes| == 0 {
      return HoursPerDayFallback;
    }
    for i := 0 to |incomes|
      invariant HoursPerDayOf(incomes[i..]) == HoursPerDayOf(incomes)
    {
      assert incomes[i..][1..] == incomes[i + 1..];
      var income := incomes[i];
      if income.DailyIncome? && income.hours > 0 {
        return income.hours;
      }
      if income.WeeklyIncome? && income.hoursPerDay > 0 {
        return income.hoursPerDay;
      }
      if income.MonthlyIncome? && income.hoursPerDay > 0 {
        return income.hoursPerDay;
      }
      if income.ProjectIncome? && income.hoursPerDay > 0 {
        return income.hoursPerDay;
      }
    }
    return HoursPerDayFallback;
  }

  // ---------------------------------------------------------------------------
  // The store object

  class AppStore {
    var state: StoreState

    constructor ()
      ensures state == InitialState
    {
      state := InitialState;
    }

    /** `token` is truthy: present and not the empty text. */
    predicate HasToken()
      reads this
    {
      state.token.Some? && state.token.value != ""
    }

    /** Signed in with a token: the condition every server round trip checks first. */
    predicate SignedIn()
      reads this
    {
      state.isAuthenticated && HasToken()
    }

    method SetOnboarded(value: bool)
      modifies this
      ensures state == old(state).(isOnboarded := value)
    {
      state := state.(isOnboarded := value);
    }

    /** `addIncome`: the income joins the end of the list. */
    method AddIncome(income: Income)
      modifies this
      ensures state == old(state).(incomes := old(state.incomes) + [income])
    {
      state := state.(incomes := state.incomes + [income]);
    }

    /** `updateIncome` with a complete income: every income with that id is replaced. */
    method UpdateIncome(id: string, update: Income)
      modifies this
      ensures state == old(state).(incomes := UpdateById(old(state.incomes), id, update))
    {
      state := state.(incomes := UpdateById(state.incomes, id, update));
    }

    /** `removeIncome`: every income with that id leaves the list. */
    method RemoveIncome(id: string)
      modifies this
      ensures state == old(state).(incomes := RemoveById(old(state.incomes), id))
    {
      state := state.(incomes := RemoveById(state.incomes, id));
    }

    /**
     * `addSaving`: the saving is always kept locally. Signed in and online, it is posted
     * to the server (`posted`) and queued only if the server does not accept it; signed
     * in and offline, it is queued; signed out, nothing else happens.
     */
    method AddSaving(saving: Saving, pending: PendingSync, online: bool, serverReply: Reply) returns (posted: bool)
      modifies this, pending
      ensures state == old(state).(savings := old(state.savings) + [saving])
      ensures posted <==> old(SignedIn()) && online
      ensures old(SignedIn()) && !(online && Succeeded(serverReply)) ==>
        pending.Queue() == old(pending.Queue()) + [saving] && pending.entry.Stored?
      ensures !old(SignedIn()) || (online && Succeeded(serverReply)) ==> pending.entry == old(pending.entry)
    {
      state := state.(savings := state.savings + [saving]);
      posted := false;
      if SignedIn() && online {
        posted := true;
        if !Succeeded(serverReply) {
          pending.AddPendingSaving(saving);
        }
      } else if SignedIn() {
        pending.AddPendingSaving(saving);
      }
    }

    /** `setUser`: signed in exactly when there is a user. */
    method SetUser(user: Option<User>)
      modifies this
      ensures state == old(state).(user := user, isAuthenticated := user.Some?)
    {
      state := state.(user := user, isAuthenticated := user.Some?);
    }

    method SetToken(token: Option<string>)
      modifies this
      ensures state == old(state).(token := token)
    {
      state := state.(token := token);
    }

    method SetAuthenticated(value: bool)
      modifies this
      ensures state == old(state).(isAuthenticated := value)
    {
      state := state.(isAuthenticated := value);
    }

    method SetLoading(value: bool)
      modifies this
      ensures state == old(state).(isLoading := value)
    {
      state := state.(isLoading := value);
    }

    method ClearAll()
      modifies this
      ensures state == InitialState
    {
      state := InitialState;
    }

    method SetIncomes(incomes: seq<Income>)
      modifies this
      ensures state == old(state).(incomes := incomes)
    {
      state := state.(incomes := incomes);
    }

    method SetSavings(savings: seq<Saving>)
      modifies this
      ensures state == old(state).(savings := savings)
    {
      state := state.(savings := savings);
    }

    /** `logout`: everything back to the initial state, except that onboarding stays done. */
    method Logout()
      modifies this
      ensures state == InitialState.(isOnboarded := true)
      ensures !SignedIn() && state.incomes == [] && state.savings == []
    {
      state := InitialState.(isOnboarded := true);
    }

    /**
     * `loadFromDatabase`. Signed out it answers false and touches nothing. Signed in it
     * replaces the savings with the server's list when the reply succeeds with data
     * (incomes are never taken from the server) and ends with loading off.
     */
    method LoadFromDatabase(reply: LoadReply) returns (ok: bool)
      modifies this
      ensures !old(SignedIn()) ==> !ok && state == old(state)
      ensures old(SignedIn()) ==> ok == LoadedSavings(reply).Some?
      ensures old(SignedIn()) ==> state == old(state).(
        savings := if ok then LoadedSavings(reply).value else old(state.savings),
        isLoading := false)
    {
      if !SignedIn() {
        return false;
      }
      SetLoading(true);
      var loaded := LoadedSavings(reply);
      ok := false;
      if loaded.Some? {
        SetSavings(loaded.value);
        ok := true;
      }
      SetLoading(false);
    }

    /**
     * `syncPendingData`: signed in and online, the queue is pushed and the answer is its
     * success; otherwise false with the queue untouched.
     */
    method SyncPendingData(pending: PendingSync, online: bool, reply: Reply) returns (ok: bool)
      modifies pending
      ensures !(old(SignedIn()) && online) ==> !ok && pending.entry == old(pending.entry)
      ensures old(SignedIn()) && online ==> ok == (old(pending.Queue()) == [] || Succeeded(reply))
      ensures old(SignedIn()) && online && old(pending.Queue()) != [] && ok ==> pending.entry == Absent
      ensures !ok || old(pending.Queue()) == [] ==> pending.entry == old(pending.entry)
    {
      if !SignedIn() || !online {
        return false;
      }
      var sent;
      ok, sent := pending.SyncPendingDataToDatabase(reply);
    }

    /**
     * `initialSync`, run after signing in or on reload. Signed out: false, nothing
     * touched. Offline: false. Online: the queue is pushed first, then the savings are
     * loaded as in LoadFromDatabase, and the answer is whether that load succeeded.
     */
    method InitialSync(pending: PendingSync, online: bool, syncReply: Reply, loadReply: LoadReply) returns (ok: bool)
      modifies this, pending
      ensures !old(SignedIn()) ==> !ok && state == old(state) && pending.entry == old(pending.entry)
      ensures old(SignedIn()) && !online ==>
        !ok && state == old(state).(isLoading := false) && pending.entry == old(pending.entry)
      ensures old(SignedIn()) && online ==>
        && ok == LoadedSavings(loadReply).Some?
        && state == old(state).(
             savings := if ok then LoadedSavings(loadReply).value else old(state.savings),
             isLoading := false)
        && (old(pending.Queue()) != [] && Succeeded(syncReply) ==> pending.entry == Absent)
        && (old(pending.Queue()) == [] || !Succeeded(syncReply) ==> pending.entry == old(pending.entry))
    {
      if !SignedIn() {
        return false;
      }
      SetLoading(true);
      ok := false;
      if online {
        var synced, sent := pending.SyncPendingDataToDatabase(syncReply);
        var loaded := LoadedSavings(loadReply);
        if loaded.Some? {
          SetSavings(loaded.value);
          ok := true;
        }
      }
      SetLoading(false);
    }
  }
}
