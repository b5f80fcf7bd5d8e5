/** The partner registration wizard `CompanyRegistration` of
    src/pages/companyRegister.tsx: three form steps, the declaration that
    enables the submit button, the simulated two-second verification that
    ends on the success screen, and the form fields.

    Every event is a click or an input change on a control the current
    screen shows; an event whose control is not on screen does nothing.
    The `setTimeout` of `handleSubmit` is the event `CompleteSubmission`. */
module CompanyRegister {

  /** The text fields of `formData`. */
  datatype Field = CompanyName | RegNumber | OwnerName | Aadhaar
  {
    /** The step whose screen holds the field's input. */
    function Step(): int {
      match this
      case CompanyName => 1
      case RegNumber => 1
      case OwnerName => 2
      case Aadhaar => 2
    }
  }

  datatype FormData = FormData(
    companyName: string,
    regNumber: string,
    ownerName: string,
    aadhaar: string,
    wasteDeclaration: bool)
  {
    function Text(field: Field): string {
      match field
      case CompanyName => companyName
      case RegNumber => regNumber
      case OwnerName => ownerName
      case Aadhaar => aadhaar
    }
  }

  /** `useState({ companyName: '', ..., wasteDeclaration: false })`. */
  const EmptyForm: FormData := FormData("", "", "", "", false)

  /** An `onChange` of one input. */
  datatype Edit = SetText(field: Field, value: string) | SetDeclaration(checked: bool)
  {
    function Step(): int {
      match this
      case SetText(field, _) => field.Step()
      case SetDeclaration(_) => 3
    }
  }

  /** `setFormData({...formData, <field>: value})`. */
  function Apply(form: FormData, edit: Edit): FormData {
    match edit
    case SetText(CompanyName, v) => form.(companyName := v)
    case SetText(RegNumber, v) => form.(regNumber := v)
    case SetText(OwnerName, v) => form.(ownerName := v)
    case SetText(Aadhaar, v) => form.(aadhaar := v)
    case SetDeclaration(b) => form.(wasteDeclaration := b)
  }

  datatype Wizard = Wizard(step: int, isSubmitting: bool, isSuccess: bool, form: FormData)

  const Start: Wizard := Wizard(1, false, false, EmptyForm)

  /** `disabled={isSubmitting || !formData.wasteDeclaration}`, negated. */
  predicate SubmitEnabled(w: Wizard) {
    !(w.isSubmitting || !w.form.wasteDeclaration)
  }

  /** What is on screen: the success page replaces the whole form. */
  datatype Screen = SuccessPage | FormStep(step: int)

  function ScreenOf(w: Wizard): Screen {
    if w.isSuccess then SuccessPage else FormStep(w.step)
  }

  /** The forward button: `setStep(2)` on step 1, `setStep(3)` on step 2. */
  function Next(w: Wizard): Wizard {
    if w.isSuccess then w
    else if w.step == 1 then w.(step := 2)
    else if w.step == 2 then w.(step := 3)
    else w
  }

  /** The Back button: `setStep(1)` on step 2, `setStep(2)` on step 3. */
  function Back(w: Wizard): Wizard {
    if w.isSuccess then w
    else if w.step == 2 then w.(step := 1)
    else if w.step == 3 then w.(step := 2)
    else w
  }

  function Edited(w: Wizard, edit: Edit): Wizard {
    if w.isSuccess || w.step != edit.Step() then w else w.(form := Apply(w.form, edit))
  }

  /** `handleSubmit`, reachable only through the enabled submit button. */
  function Submitted(w: Wizard): Wizard {
    if w.isSuccess || w.step != 3 || !SubmitEnabled(w) then w else w.(isSubmitting := true)
  }

  /** The timeout of `handleSubmit`, pending exactly while submitting. */
  function Completed(w: Wizard): Wizard {
    if w.isSubmitting then w.(isSubmitting := false, isSuccess := true) else w
  }

  /** One user or timer event. */
  datatype Event = PressNext | PressBack | Change(edit: Edit) | Submit | Timeout

  function Handle(w: Wizard, e: Event): Wizard {
    match e
    case PressNext => Next(w)
    case PressBack => Back(w)
    case Change(edit) => Edited(w, edit)
    case Submit => Submitted(w)
    case Timeout => Completed(w)
  }

  /** The state after a sequence of events, in order. */
  function Run(w: Wizard, events: seq<Event>): Wizard
    decreases |events|
  {
    if |events| == 0 then w else Run(Handle(w, events[0]), events[1..])
  }

  /** The invariant of every reachable state. */
  predicate Valid(w: Wizard) {
    1 <= w.step <= 3 && !(w.isSubmitting && w.isSuccess)
  }

  class Registration {
    var step: int
    var isSubmitting: bool
    var isSuccess: bool
    var formData: FormData

    function State(): Wizard
      reads this
    {
      Wizard(step, isSubmitting, isSuccess, formData)
    }

    constructor()
      ensures State() == Start
    {
      step := 1;
      isSubmitting := false;
      isSuccess := false;
      formData := EmptyForm;
    }

    method PressNext()
      modifies this
      ensures State() == Next(old(State()))
    {
      if !isSuccess && (step == 1 || step == 2) {
        step := step + 1;
      }
    }

    method PressBack()
      modifies this
      ensures State() == Back(old(State()))
    {
      if !isSuccess && (step == 2 || step == 3) {
        step := step - 1;
      }
    }

    method Change(edit: Edit)
      modifies this
      ensures State() == Edited(old(State()), edit)
    {
      if !isSuccess && step == edit.Step() {
        formData := Apply(formData, edit);
      }
    }

    method HandleSubmit()
      modifies this
      ensures State() == Submitted(old(State()))
    {
      if !isSuccess && step == 3 && !(isSubmitting || !formData.wasteDeclaration) {
        isSubmitting := true;
      }
    }

    method CompleteSubmission()
      modifies this
      ensures State() == Completed(old(State()))
    {
      if isSubmitting {
        isSubmitting := false;
        isSuccess := true;
      }
    }
  }

  // ---------------------------------------------------------------------
  // Properties

  /** The wizard opens on step 1 with an empty form, and every event keeps
      the step among 1, 2 and 3. */
  lemma EventsKeepValid(w: Wizard, edit: Edit)
    requires Valid(w)
    ensures Valid(Start) && ScreenOf(Start) == FormStep(1)
    ensures Valid(Next(w)) && Valid(Back(w)) && Valid(Edited(w, edit))
    ensures Valid(Submitted(w)) && Valid(Completed(w))
  {
  }

  /** Whatever the events, the wizard stays on one of its three steps and
      never shows the success page while still submitting. */
  lemma {:induction false} RunKeepsValid(w: Wizard, events: seq<Event>)
    requires Valid(w)
    ensures Valid(Run(w, events))
    decreases |events|
  {
    if |events| > 0 {
      EventsKeepValid(w, if events[0].Change? then events[0].edit else SetDeclaration(false));
      RunKeepsValid(Handle(w, events[0]), events[1..]);
    }
  }

  /** The success page is reached only through a submission: a run that
      never submits never succeeds. */
  lemma {:induction false} NoSuccessWithoutSubmit(w: Wizard, events: seq<Event>)
    requires !w.isSuccess && !w.isSubmitting
    requires forall k :: 0 <= k < |events| ==> !events[k].Submit?
    ensures !Run(w, events).isSuccess && !Run(w, events).isSubmitting
    decreases |events|
  {
    if |events| > 0 {
      NoSuccessWithoutSubmit(Handle(w, events[0]), events[1..]);
    }
  }

  /** The step buttons move to a neighbouring step only: 1 to 2, 2 to 3,
      2 to 1 and 3 to 2; there is no jump between 1 and 3. */
  lemma StepMoves(w: Wizard)
    requires Valid(w) && !w.isSuccess
    ensures Next(w).step == (if w.step < 3 then w.step + 1 else 3)
    ensures Back(w).step == (if w.step > 1 then w.step - 1 else 1)
    ensures Next(w).step - w.step in {0, 1} && w.step - Back(w).step in {0, 1}
    ensures Next(w).form == w.form && Back(w).form == w.form
  {
  }

  /** Nothing moves the step other than these buttons, and every
      transition is between neighbours. */
  lemma NoJump(w: Wizard, edit: Edit)
    requires Valid(w)
    ensures Edited(w, edit).step == w.step && Submitted(w).step == w.step && Completed(w).step == w.step
    ensures !(w.step == 1 && Next(w).step == 3) && !(w.step == 3 && Back(w).step == 1)
  {
  }

  /** A submission starts exactly from step 3 with the declaration ticked
      and no submission under way. */
  lemma SubmitGate(w: Wizard)
    requires !w.isSuccess
    ensures Submitted(w).isSubmitting != w.isSubmitting <==>
      (w.step == 3 && w.form.wasteDeclaration && !w.isSubmitting)
    ensures !w.form.wasteDeclaration ==> Submitted(w) == w
  {
  }

  /** Submitting and then the timeout end on the success page, with the
      form as it was. */
  lemma SubmitThenSuccess(w: Wizard)
    requires Valid(w) && !w.isSuccess && w.step == 3 && SubmitEnabled(w)
    ensures Submitted(w).isSubmitting && ScreenOf(Submitted(w)) == FormStep(3)
    ensures var done := Completed(Submitted(w));
      done.isSuccess && !done.isSubmitting && done.form == w.form && ScreenOf(done) == SuccessPage
  {
  }

  /** The success page is final: no event leaves it or changes the form. */
  lemma SuccessIsFinal(w: Wizard, edit: Edit)
    requires w.isSuccess && !w.isSubmitting
    ensures Next(w) == w && Back(w) == w && Edited(w, edit) == w
    ensures Submitted(w) == w && Completed(w) == w
  {
  }

  /** An input change replaces exactly its own field. */
  lemma ApplyOnlyItsField(form: FormData, edit: Edit, other: Field)
    ensures edit.SetText? ==>
      Apply(form, edit).Text(other) == (if other == edit.field then edit.value else form.Text(other)) &&
      Apply(form, edit).wasteDeclaration == form.wasteDeclaration
    ensures edit.SetDeclaration? ==>
      Apply(form, edit).Text(other) == form.Text(other) &&
      Apply(form, edit).wasteDeclaration == edit.checked
  {
  }

  /** A change is applied only on the step that shows its input. */
  lemma EditNeedsItsStep(w: Wizard, edit: Edit)
    ensures Edited(w, edit) != w ==> !w.isSuccess && w.step == edit.Step()
    ensures !w.isSuccess && w.step == edit.Step() ==> Edited(w, edit).form == Apply(w.form, edit)
  {
  }
}
