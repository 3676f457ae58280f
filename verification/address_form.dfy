/** The second step (src/pages/AddressForm.tsx): the automatic category load,
    which controls the loader status enables, the step's validation and its
    two buttons. */
module AddressForm {
  import opened Text
  import opened FormTypes
  import FormData
  import opened CategoryLoader
  import opened Routes
  import opened Pages

  const WorkplaceMessage: string := "Выберите место работы"
  const AddressMessage: string := "Укажите адрес проживания"

  /** The mount effect: it asks for the categories only while the loader is
      idle, so an earlier failure is never retried behind the user's back. */
  function AutoLoad(l: Loader, o: FetchOutcome): (r: (Loader, bool))
    ensures r.1 <==> l.status == Idle
    ensures l.status != Idle ==> r.0 == l
    ensures r.1 ==> r.0.status == Loaded || r.0.status == Failed
  {
    if l.status == Idle then Load(l, o) else (l, false)
  }

  /** What the page shows for a loader status. */
  datatype Controls = Controls(
    selectDisabled: bool,   // the workplace select
    nextDisabled: bool,     // the submit button
    retryShown: bool,       // the error text and its retry button
    loadingHint: bool)      // the "Загрузка..." placeholder option

  /** The select and the Next button are enabled only once the list is
      loaded; the retry control appears only after a failed load. */
  function ControlsFor(s: Status): (c: Controls)
    ensures !c.selectDisabled <==> s == Loaded
    ensures !c.nextDisabled <==> s == Loaded
    ensures c.retryShown <==> s == Failed
    ensures c.loadingHint <==> s == Loading
  {
    Controls(s != Loaded, s != Loaded, s == Failed, s == Loading)
  }

  /** The retry button calls `load` again: shown only in the error state, it
      always sends a request there, and the failed state it is shown in always
      has a message to show beside it. */
  lemma RetryControl(l: Loader, o: FetchOutcome)
    requires Consistent(l)
    requires ControlsFor(l.status).retryShown
    ensures l.error.Some?
    ensures Load(l, o).1
  {
  }

  /** `validate`: a message for each of workplace and address that is blank.
      Whether the workplace is one of the loaded categories is not checked. */
  function Validate(d: FormState): (e: FieldErrors)
    ensures e.Keys <= {WorkplaceField, AddressField}
    ensures WorkplaceField in e <==> Blank(d.workplace)
    ensures AddressField in e <==> Blank(d.address)
    ensures e == map[] <==> !Blank(d.workplace) && !Blank(d.address)
  {
    var e0: FieldErrors := map[];
    var e1 := if Trim(d.workplace) == "" then e0[WorkplaceField := WorkplaceMessage] else e0;
    var e2 := if Trim(d.address) == "" then e1[AddressField := AddressMessage] else e1;
    assert WorkplaceField in e2 ==> e2 != map[];
    assert AddressField in e2 ==> e2 != map[];
    e2
  }

  /** `handleSubmit`: forward to the loan step exactly when validation passes. */
  function HandleSubmit(d: FormState): (r: Submission)
    ensures r.errors == Validate(d)
    ensures r.next == Some(Loan) <==> r.errors == map[]
    ensures r.next == None || r.next == Some(Loan)
  {
    var e := Validate(d);
    Submission(e, if e == map[] then Some(Loan) else None)
  }

  /** Pressing Next: nothing happens while the button is disabled; otherwise
      `handleSubmit`. Leaving for the loan step needs loaded categories and
      a workplace and an address that are not blank. */
  function Next(d: FormState, s: Status): (r: Option<Submission>)
    ensures r.Some? <==> s == Loaded
    ensures r.Some? && r.value.next.Some? ==> !Blank(d.workplace) && !Blank(d.address)
  {
    if ControlsFor(s).nextDisabled then None else Some(HandleSubmit(d))
  }

  /** `handleBack`: back to the first step, without validating and without
      touching the record. */
  function HandleBack(d: FormState): (r: (FormState, Step))
    ensures r.0 == d && r.1 == Personal
  {
    (d, Personal)
  }

  /** The workplace select and the address input store their value verbatim
      and move no other field. */
  function SelectWorkplace(d: FormState, value: string): (r: FormState)
    ensures r == d.(workplace := value)
  {
    FormData.Update(d, FormData.NoChanges.(workplace := Some(value)))
  }

  function EnterAddress(d: FormState, value: string): (r: FormState)
    ensures r == d.(address := value)
  {
    FormData.Update(d, FormData.NoChanges.(address := Some(value)))
  }
}
