/** The third step (src/pages/LoanForm.tsx): the two redirect guards run on
    entry, the step's validation, the submission with its flags and result
    snapshot, and closing the confirmation. The request's outcome is an
    input. */
module LoanForm {
  import opened Text
  import opened FormTypes
  import FormData
  import opened Routes
  import PersonalForm
  import AddressForm
  import PhoneFormat

  const AmountMessage: string := "Выберите сумму займа"
  const TermMessage: string := "Выберите срок займа"
  const SendFailedMessage: string := "Ошибка при отправке заявки"
  const UnknownSendErrorMessage: string := "Неизвестная ошибка при отправке"

  /** The range inputs' bounds. The handlers store whatever the control
      reports; nothing here clamps. */
  const AmountMin: int := 200
  const AmountMax: int := 1000
  const AmountStep: int := 100
  const TermMin: int := 10
  const TermMax: int := 30

  /** The navigations the two entry effects issue: back to the first step
      when a first-step field is the empty string, back to the second when a
      second-step field is. Emptiness is checked on the raw value, not trimmed. */
  function Redirects(d: FormState): (r: set<Step>)
    ensures Personal in r <==> d.phone == "" || d.firstName == "" || d.lastName == "" || d.gender == Unset
    ensures Address in r <==> d.workplace == "" || d.address == ""
    ensures Loan !in r
  {
    (if d.phone == "" || d.firstName == "" || d.lastName == "" || GenderText(d.gender) == "" then {Personal} else {})
    + (if d.workplace == "" || d.address == "" then {Address} else {})
  }

  /** A record that passed the first two steps' validation is not sent back. */
  lemma ValidatedRecordStays(d: FormState)
    requires PersonalForm.Validate(d) == map[]
    requires AddressForm.Validate(d) == map[]
    ensures Redirects(d) == {}
  {
    assert d.firstName != "" by { assert !Blank(d.firstName); }
    assert d.lastName != "" by { assert !Blank(d.lastName); }
    assert d.workplace != "" by { assert !Blank(d.workplace); }
    assert d.address != "" by { assert !Blank(d.address); }
  }

  /** The guards are weaker than the first step's validation: a name of one
      space is not sent back, although the first step would reject it. */
  lemma GuardAdmitsBlankName(d: FormState)
    requires d == FormState("0712 345 678", " ", "Иванов", Male, "laptops", "Москва", 200, 10)
    ensures Redirects(d) == {}
    ensures FirstNameField in PersonalForm.Validate(d)
  {
    assert Blank(d.firstName);
  }

  /** Entering the loan step with the default record sends the user back to
      the first step (and the second-step guard fires too). */
  lemma DefaultRecordRedirected()
    ensures Redirects(FormData.DefaultState) == {Personal, Address}
  {
  }

  /** `validate`: a message for a zero amount and for a zero term. */
  function Validate(d: FormState): (e: FieldErrors)
    ensures e.Keys <= {AmountField, TermField}
    ensures AmountField in e <==> d.amount == 0
    ensures TermField in e <==> d.term == 0
    ensures e == map[] <==> d.amount != 0 && d.term != 0
  {
    var e0: FieldErrors := map[];
    var e1 := if d.amount == 0 then e0[AmountField := AmountMessage] else e0;
    if d.term == 0 then e1[TermField := TermMessage] else e1
  }

  /** Every value the sliders offer, and in particular the defaults, passes. */
  lemma SliderValuesPass(d: FormState)
    requires AmountMin <= d.amount <= AmountMax
    requires TermMin <= d.term <= TermMax
    ensures Validate(d) == map[]
    ensures Validate(FormData.DefaultState) == map[]
  {
  }

  /** The slider handlers: `update({ amount })` and `update({ term })`. */
  function ChangeAmount(d: FormState, value: int): (r: FormState)
    ensures r == d.(amount := value)
  {
    FormData.Update(d, FormData.NoChanges.(amount := Some(value)))
  }

  function ChangeTerm(d: FormState, value: int): (r: FormState)
    ensures r == d.(term := value)
  {
    FormData.Update(d, FormData.NoChanges.(term := Some(value)))
  }

  /** `ResultSnapshot`: what the confirmation shows. */
  datatype Snapshot = Snapshot(firstName: string, lastName: string, amount: int, term: int)

  /** The page's own state. */
  datatype Page = Page(
    errors: FieldErrors,
    isSubmitting: bool,
    apiError: Option<string>,
    modalOpen: bool,
    snapshot: Option<Snapshot>)

  const InitialPage: Page := Page(map[], false, None, false, None)

  /** The JSON body of the request. */
  datatype Payload = Payload(title: string)

  /** How the request ended: acknowledged with a readable body, a status
      that is not 2xx, or a thrown value (with a message when it is an `Error`). */
  datatype SendOutcome = Acknowledged | NotOk | Threw(message: Option<string>)

  /** The message the catch block shows for a failed request. */
  function SendErrorMessage(o: SendOutcome): (m: string)
    requires !o.Acknowledged?
    ensures o.NotOk? ==> m == SendFailedMessage
    ensures o.Threw? && o.message.Some? ==> m == o.message.value
    ensures o.Threw? && o.message.None? ==> m == UnknownSendErrorMessage
  {
    match o
    case NotOk => SendFailedMessage
    case Threw(msg) => msg.GetOr(UnknownSendErrorMessage)
  }

  /** The request title: the first name, then one space, then the last name,
      each at a position fixed by the first name's length. */
  function Title(d: FormState): (t: string)
    ensures |t| == |d.firstName| + 1 + |d.lastName|
    ensures t[..|d.firstName|] == d.firstName && t[|d.firstName|] == ' '
    ensures t[|d.firstName| + 1..] == d.lastName
  {
    d.firstName + " " + d.lastName
  }

  /** `handleSubmit` up to the await: the old request error is cleared and
      the step validated; on failure it returns there, the flag untouched;
      otherwise the flag goes up and the request is built. */
  function BeginSubmit(p: Page, d: FormState): (r: (Page, Option<Payload>))
    ensures var (next, sent) := r;
      && next.errors == Validate(d)
      && next.apiError == None
      && (sent.Some? <==> d.amount != 0 && d.term != 0)
      && (sent.Some? ==> next.isSubmitting && sent.value.title == Title(d))
      && (sent.None? ==> next.isSubmitting == p.isSubmitting)
      && next.modalOpen == p.modalOpen && next.snapshot == p.snapshot
  {
    var e := Validate(d);
    var cleared := p.(apiError := None, errors := e);
    if e != map[] then (cleared, None)
    else
      assert AmountField !in e && TermField !in e;
      (cleared.(isSubmitting := true), Some(Payload(Title(d))))
  }

  /** `handleSubmit` after the await, with the record `d` it read when it
      started. Acknowledged: the snapshot of `d` is taken and the dialog
      opens. Otherwise: the error is shown and the dialog stays as it was.
      Either way the flag comes down. */
  function FinishSubmit(p: Page, d: FormState, o: SendOutcome): (r: Page)
    ensures !r.isSubmitting
    ensures r.errors == p.errors
    ensures o.Acknowledged? ==>
      r.modalOpen && r.snapshot == Some(Snapshot(d.firstName, d.lastName, d.amount, d.term)) && r.apiError == p.apiError
    ensures !o.Acknowledged? ==>
      r.apiError == Some(SendErrorMessage(o)) && r.modalOpen == p.modalOpen && r.snapshot == p.snapshot
  {
    if o.Acknowledged? then
      p.(snapshot := Some(Snapshot(d.firstName, d.lastName, d.amount, d.term)), modalOpen := true, isSubmitting := false)
    else
      p.(apiError := Some(SendErrorMessage(o)), isSubmitting := false)
  }

  /** A whole submission. A request goes out exactly when the step is valid;
      after it the flag is down on both paths; the dialog opens, with the
      values as they were at submit time, exactly when the request was sent
      and acknowledged; a failure leaves an error and a closed dialog closed. */
  function Submit(p: Page, d: FormState, o: SendOutcome): (r: (Page, Option<Payload>))
    ensures var (next, sent) := r;
      && (sent.Some? <==> Validate(d) == map[])
      && (sent.Some? ==> sent.value == Payload(d.firstName + " " + d.lastName) && !next.isSubmitting)
      && (sent.None? ==> next.isSubmitting == p.isSubmitting && next.modalOpen == p.modalOpen && next.snapshot == p.snapshot)
      && (sent.Some? && o.Acknowledged? ==>
            next.modalOpen && next.snapshot == Some(Snapshot(d.firstName, d.lastName, d.amount, d.term)))
      && (sent.Some? && !o.Acknowledged? ==> next.apiError.Some? && next.modalOpen == p.modalOpen)
  {
    var (started, sent) := BeginSubmit(p, d);
    if sent.Some? then (FinishSubmit(started, d, o), sent) else (started, sent)
  }

  /** Pressing the submit button: it is disabled while a request is
      pending, so nothing happens then; otherwise a whole submission. A
      pressed button sends a request exactly when the step is valid. */
  function PressSubmit(p: Page, d: FormState, o: SendOutcome): (r: Option<(Page, Option<Payload>)>)
    ensures r.None? <==> p.isSubmitting
    ensures r.Some? ==> (r.value.1.Some? <==> Validate(d) == map[])
    ensures r.Some? && r.value.1.Some? ==> !r.value.0.isSubmitting
  {
    if p.isSubmitting then None else Some(Submit(p, d, o))
  }

  /** While a sent request is awaited, neither button does anything: a
      second press cannot send a second request, and Back cannot leave. */
  lemma PendingBlocksButtons(p: Page, d: FormState, d': FormState, o: SendOutcome)
    requires BeginSubmit(p, d).1.Some?
    ensures PressSubmit(BeginSubmit(p, d).0, d', o).None?
    ensures Back(BeginSubmit(p, d).0).None?
  {
  }

  /** The Back button: to the address step, unless a request is pending. */
  function Back(p: Page): (r: Option<Step>)
    ensures r.Some? <==> !p.isSubmitting
    ensures r.Some? ==> r.value == Address
  {
    if p.isSubmitting then None else Some(Address)
  }

  /** `handleModalClose`: the dialog closes, the snapshot is dropped, the
      record goes back to its defaults, and the wizard returns to the first
      step. */
  function CloseModal(p: Page, d: FormState): (r: (Page, FormState, Step))
    ensures !r.0.modalOpen && r.0.snapshot == None
    ensures forall f :: Get(r.1, f) == FormData.DefaultValue(f)
    ensures r.2 == Personal
  {
    (p.(modalOpen := false, snapshot := None), FormData.Reset(d), Personal)
  }

  /** After a completed application the wizard starts over: the record is
      the default one, the first step's validation rejects it, and the loan
      step would send the user back to the first step. */
  lemma CloseStartsOver(p: Page, d: FormState)
    ensures var (_, restarted, step) := CloseModal(p, d);
      && restarted == FormData.DefaultState
      && PersonalForm.Validate(restarted) != map[]
      && Personal in Redirects(restarted)
      && CurrentStepIndex(PathOf(step)) == 0
  {
    var restarted := CloseModal(p, d).1;
    SameFieldsSameRecord(restarted, FormData.DefaultState);
    assert PathOf(Personal)[..|PathOf(Personal)|] == PathOf(Personal);
  }

  /** The scenario of moving both sliders to their maxima: the record holds
      them and the step passes. */
  lemma SlidersToMaximum(d: FormState)
    requires d == FormData.DefaultState
    ensures ChangeTerm(ChangeAmount(d, AmountMax), TermMax).amount == 1000
    ensures ChangeTerm(ChangeAmount(d, AmountMax), TermMax).term == 30
    ensures Validate(ChangeTerm(ChangeAmount(d, AmountMax), TermMax)) == map[]
  {
  }

  /** The record a pass through the first two steps' inputs leaves behind,
      starting from the default one. */
  function FilledRecord(raw: string, first: string, last: string, g: Gender, work: string, addr: string): (d: FormState)
    ensures d == FormState(PhoneFormat.FormatPhone(raw), first, last, g, work, addr, 200, 10)
  {
    var d1 := PersonalForm.HandleChange(FormData.DefaultState, PersonalForm.PhoneInput, raw);
    var d2 := PersonalForm.HandleChange(d1, PersonalForm.FirstNameInput, first);
    var d3 := PersonalForm.HandleChange(d2, PersonalForm.LastNameInput, last);
    var d4 := PersonalForm.HandleGenderChange(d3, g);
    AddressForm.EnterAddress(AddressForm.SelectWorkplace(d4, work), addr)
  }

  /** A record that passes the first two steps, with a non-zero amount and
      term, goes through the third. */
  lemma ValidRecordSubmits(d: FormState)
    requires PersonalForm.Validate(d) == map[] && AddressForm.Validate(d) == map[]
    requires d.amount != 0 && d.term != 0
    ensures Redirects(d) == {}
    ensures Submit(InitialPage, d, Acknowledged).1 == Some(Payload(d.firstName + " " + d.lastName))
    ensures Submit(InitialPage, d, Acknowledged).0.snapshot == Some(Snapshot(d.firstName, d.lastName, d.amount, d.term))
  {
    ValidatedRecordStays(d);
  }

  /** A complete pass through the wizard from the default record: a phone
      typed with enough digits, non-blank names, a chosen gender, a workplace
      and an address. Every step then validates, the loan step does not send
      the user back, the request carries the full name, and an acknowledged
      submission opens the dialog with the entered names and the default
      amount and term. */
  lemma CompletedWizard(raw: string, first: string, last: string, g: Gender, work: string, addr: string)
    requires |Digits(raw)| >= 10 || (|Digits(raw)| == 9 && Digits(raw)[0] != '0')
    requires !Blank(first) && !Blank(last) && g != Unset
    requires !Blank(work) && !Blank(addr)
    ensures var d := FilledRecord(raw, first, last, g, work, addr);
      && PersonalForm.HandleSubmit(d).next == Some(Address)
      && AddressForm.HandleSubmit(d).next == Some(Loan)
      && Redirects(d) == {}
      && Submit(InitialPage, d, Acknowledged).1 == Some(Payload(first + " " + last))
      && Submit(InitialPage, d, Acknowledged).0.snapshot == Some(Snapshot(first, last, 200, 10))
  {
    var d := FilledRecord(raw, first, last, g, work, addr);
    PhoneFormat.FormatPhoneAccepted(raw);
    ValidRecordSubmits(d);
  }
}
