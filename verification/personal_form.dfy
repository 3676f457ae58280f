/** The first step (src/pages/PersonalForm.tsx): how typed values are stored,
    the step's validation and its submit handler. */
module PersonalForm {
  import opened Text
  import opened FormTypes
  import opened PhoneFormat
  import FormData
  import opened Routes
  import opened Pages

  const PhoneMessage: string := "Введите телефон в формате 0XXX XXX XXX"
  const FirstNameMessage: string := "Введите имя"
  const LastNameMessage: string := "Введите фамилию"
  const GenderMessage: string := "Выберите пол"

  /** The three text inputs of the step. */
  datatype TextInput = PhoneInput | FirstNameInput | LastNameInput

  /** The phone as stored is already formatted: formatting it again changes
      nothing. */
  predicate PhoneFormatted(d: FormState) {
    FormatPhone(d.phone) == d.phone
  }

  /** `handleChange`: the phone is stored through the formatter, the names
      verbatim, and no other field moves. A formatted phone stays formatted. */
  function HandleChange(d: FormState, input: TextInput, value: string): (r: FormState)
    ensures input == PhoneInput ==> r == d.(phone := FormatPhone(value))
    ensures input == FirstNameInput ==> r == d.(firstName := value)
    ensures input == LastNameInput ==> r == d.(lastName := value)
    ensures PhoneFormatted(d) || input == PhoneInput ==> PhoneFormatted(r)
  {
    FormatPhoneIdempotent(value);
    var changes :=
      match input
      case PhoneInput => FormData.NoChanges.(phone := Some(FormatPhone(value)))
      case FirstNameInput => FormData.NoChanges.(firstName := Some(value))
      case LastNameInput => FormData.NoChanges.(lastName := Some(value));
    FormData.Update(d, changes)
  }

  /** `handleGenderChange`: only the gender moves. */
  function HandleGenderChange(d: FormState, g: Gender): (r: FormState)
    ensures r == d.(gender := g)
  {
    FormData.Update(d, FormData.NoChanges.(gender := Some(g)))
  }

  /** `validate`: a message for the phone unless it matches the full pattern,
      for each name that is blank, and for an unset gender. No other key. */
  function Validate(d: FormState): (e: FieldErrors)
    ensures e.Keys <= {PhoneField, FirstNameField, LastNameField, GenderField}
    ensures PhoneField in e <==> !MatchesPhonePattern(d.phone)
    ensures FirstNameField in e <==> Blank(d.firstName)
    ensures LastNameField in e <==> Blank(d.lastName)
    ensures GenderField in e <==> d.gender == Unset
    ensures e == map[] <==>
      MatchesPhonePattern(d.phone) && !Blank(d.firstName) && !Blank(d.lastName) && d.gender != Unset
  {
    var e0: FieldErrors := map[];
    var e1 := if d.phone == "" || !MatchesPhonePattern(d.phone) then e0[PhoneField := PhoneMessage] else e0;
    var e2 := if Trim(d.firstName) == "" then e1[FirstNameField := FirstNameMessage] else e1;
    var e3 := if Trim(d.lastName) == "" then e2[LastNameField := LastNameMessage] else e2;
    var e4 := if GenderText(d.gender) == "" then e3[GenderField := GenderMessage] else e3;
    assert PhoneField in e4 ==> e4 != map[];
    assert FirstNameField in e4 ==> e4 != map[];
    assert LastNameField in e4 ==> e4 != map[];
    assert GenderField in e4 ==> e4 != map[];
    e4
  }

  /** `handleSubmit`: the step's errors are shown, and the wizard moves to the
      address step exactly when there are none. */
  function HandleSubmit(d: FormState): (r: Submission)
    ensures r.errors == Validate(d)
    ensures r.next == Some(Address) <==> r.errors == map[]
    ensures r.next == None || r.next == Some(Address)
  {
    var e := Validate(d);
    Submission(e, if e == map[] then Some(Address) else None)
  }

  /** With the phone stored through the formatter, the step accepts the phone
      exactly when the typed value held ten digits, or nine not starting
      with `0`. */
  lemma StoredPhoneAccepted(d: FormState, value: string)
    ensures var r := HandleChange(d, PhoneInput, value);
      PhoneField !in Validate(r) <==>
        |Digits(value)| >= 10 || (|Digits(value)| == 9 && Digits(value)[0] != '0')
  {
    FormatPhoneAccepted(value);
  }

  /** The default record's empty phone is formatted, so with `HandleChange`
      and `HandleGenderChange` keeping it so, every stored phone is a
      formatter image. */
  lemma DefaultPhoneFormatted()
    ensures PhoneFormatted(FormData.DefaultState)
  {
    assert Slice(Digits(""), 0, 10) == "";
  }
}
