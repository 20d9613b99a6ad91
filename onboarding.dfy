/**
 * components/app/OnboardingPage.tsx: the first-run flow. The user picks a kind of
 * income, fills its form, adds it (as often as they like) and finishes once at least
 * one income exists. Incomes are built by the same rules as on the settings page
 * (IncomeForm.NewIncome).
 */
module Onboarding {
  import opened Wrappers
  import opened Types
  import opened IncomeForm
  import Store

  /** Which of the two panes is shown. */
  datatype Step = SelectStep | FormStep

  class OnboardingPage {
    var step: Step
    var selectedType: Option<IncomeType>
    var form: FormData

    /** The form pane is only ever reached by picking a kind. */
    predicate Valid()
      reads this
    {
      step == FormStep ==> selectedType.Some?
    }

    constructor ()
      ensures Valid() && step == SelectStep && selectedType == None && form == EmptyForm
    {
      step := SelectStep;
      selectedType := None;
      form := EmptyForm;
    }

    /** `handleTypeSelect`: the kind is chosen, the form pane opens with an empty form. */
    method HandleTypeSelect(t: IncomeType)
      modifies this
      ensures Valid() && step == FormStep && selectedType == Some(t) && form == EmptyForm
    {
      selectedType := Some(t);
      step := FormStep;
      form := EmptyForm;
    }

    /** The back and cancel buttons: the selection pane again, the kind and form kept. */
    method Back()
      requires Valid()
      modifies this
      ensures Valid() && step == SelectStep
      ensures selectedType == old(selectedType) && form == old(form)
    {
      step := SelectStep;
    }

    /**
     * `handleAddIncome`. Without a kind or a positive amount nothing happens; otherwise
     * exactly one income, NewIncome of the kind and form under `newId`, joins the store,
     * and the page returns to the selection pane with no kind and an empty form.
     */
    method HandleAddIncome(store: Store.AppStore, newId: string)
      requires Valid()
      modifies this, store
      ensures Valid()
      ensures old(selectedType).None? || ParseForm(old(form)).amount == 0 ==>
        store.state == old(store.state) && step == old(step)
        && selectedType == old(selectedType) && form == old(form)
      ensures old(selectedType).Some? && ParseForm(old(form)).amount > 0 ==>
        && store.state == old(store.state).(
             incomes := old(store.state.incomes) + [NewIncome(old(selectedType).value, old(form), newId)])
        && step == SelectStep && selectedType == None && form == EmptyForm
    {
      if selectedType.None? {
        return;
      }
      var amount := ParseForm(form).amount;
      if amount <= 0 {
        return;
      }
      var income := NewIncome(selectedType.value, form, newId);
      store.AddIncome(income);
      step := SelectStep;
      selectedType := None;
      form := EmptyForm;
    }

    /** `handleFinish`, offered only once an income exists: onboarding is done. */
    method HandleFinish(store: Store.AppStore)
      requires |store.state.incomes| > 0
      modifies store
      ensures store.state == old(store.state).(isOnboarded := true)
      ensures |store.state.incomes| > 0
    {
      store.SetOnboarded(true);
    }
  }

  /**
   * With a kind chosen and the add button enabled, the income added is well formed and
   * holds the entered values; with no kind, the button only asks for a positive amount.
   */
  lemma AddButtonEnabled(selected: Option<IncomeType>, f: FormData, id: string)
    requires IsFormValid(selected, f)
    ensures ParseForm(f).amount > 0
    ensures selected.Some? ==> ConsistentHours(NewIncome(selected.value, f, id))
    ensures selected.None? ==> (IsFormValid(selected, f) <==> ParseForm(f).amount > 0)
  {
    if selected.Some? {
      NewIncomeConsistent(selected.value, f, id);
    }
  }
}
