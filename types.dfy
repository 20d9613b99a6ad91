/**
 * The records of types/index.ts: the six kinds of income, a saving and a user.
 *
 * Income amounts and hour counts are whole numbers: every value that reaches an
 * income is read from a form field that only ever holds digits and commas (or is a
 * product of two such values, or one of the fixed defaults).
 */
module Types {
  import opened Wrappers

  datatype IncomeType = Hourly | Daily | Weekly | Monthly | Project | Custom

  /**
   * One income source. `hours` is the number of working hours the amount pays for:
   * 1 for an hourly rate, the hours of the day for a daily income, days x hours per day
   * for the weekly, monthly and project kinds, the hours of one unit for a custom kind.
   */
  datatype Income =
    | HourlyIncome(id: string, amount: nat, hours: nat)
    | DailyIncome(id: string, amount: nat, hours: nat)
    | WeeklyIncome(id: string, amount: nat, hours: nat, daysPerWeek: nat, hoursPerDay: nat)
    | MonthlyIncome(id: string, amount: nat, hours: nat, daysPerMonth: nat, hoursPerDay: nat)
    | ProjectIncome(id: string, amount: nat, hours: nat, avgDays: nat, hoursPerDay: nat)
    | CustomIncome(id: string, amount: nat, hours: nat, title: string)

  /** The `type` tag of an income. */
  function TypeOf(i: Income): IncomeType {
    match i
    case HourlyIncome(_, _, _) => Hourly
    case DailyIncome(_, _, _) => Daily
    case WeeklyIncome(_, _, _, _, _) => Weekly
    case MonthlyIncome(_, _, _, _, _) => Monthly
    case ProjectIncome(_, _, _, _, _) => Project
    case CustomIncome(_, _, _, _) => Custom
  }

  /** The hours of a schedule: working days times hours per day. */
  function ScheduleHours(days: nat, perDay: nat): nat {
    days * perDay
  }

  /**
   * The documented relation between the fields of an income: the hours an hourly rate
   * pays for is 1, the composite kinds store days x hours per day, and every count is
   * positive.
   */
  predicate ConsistentHours(i: Income) {
    match i
    case HourlyIncome(_, _, hours) => hours == 1
    case DailyIncome(_, _, hours) => hours > 0
    case WeeklyIncome(_, _, hours, days, perDay) => days > 0 && perDay > 0 && hours == ScheduleHours(days, perDay)
    case MonthlyIncome(_, _, hours, days, perDay) => days > 0 && perDay > 0 && hours == ScheduleHours(days, perDay)
    case ProjectIncome(_, _, hours, days, perDay) => days > 0 && perDay > 0 && hours == ScheduleHours(days, perDay)
    case CustomIncome(_, _, hours, _) => hours > 0
  }

  /** `{ ...income, amount, hours }`: a copy with a new amount and hour count, same id, kind and details. */
  function WithAmountAndHours(i: Income, amount: nat, hours: nat): (r: Income)
    ensures r.id == i.id && TypeOf(r) == TypeOf(i) && r.amount == amount && r.hours == hours
    ensures i.WeeklyIncome? ==> r.WeeklyIncome? && r.daysPerWeek == i.daysPerWeek && r.hoursPerDay == i.hoursPerDay
    ensures i.MonthlyIncome? ==> r.MonthlyIncome? && r.daysPerMonth == i.daysPerMonth && r.hoursPerDay == i.hoursPerDay
    ensures i.ProjectIncome? ==> r.ProjectIncome? && r.avgDays == i.avgDays && r.hoursPerDay == i.hoursPerDay
    ensures i.CustomIncome? ==> r.CustomIncome? && r.title == i.title
  {
    i.(amount := amount, hours := hours)
  }

  /** A recorded saving: the amount not spent, the working hours it represents, and its month label. */
  datatype Saving = Saving(id: string, amount: real, hours: real, month: string, createdAt: string)

  datatype User = User(id: string, username: string, email: Option<string>, createdAt: string)
}
