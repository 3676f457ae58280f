/** The wizard's record of collected answers (src/types.ts), plus a per-field
    view of it that lets frame conditions be stated once for every field. */
module FormTypes {

  datatype Option<+T> = None | Some(value: T) {
    /** The carried value, or `default` when there is none. */
    function GetOr(default: T): T {
      match this
      case Some(v) => v
      case None => default
    }
  }

  /** `Gender | ''`: the two values the select offers, and the empty string
      the record starts with. */
  datatype Gender = Unset | Male | Female

  /** The string the select stores for a gender. */
  function GenderText(g: Gender): (t: string)
    ensures t == "" <==> g == Unset
  {
    match g
    case Unset => ""
    case Male => "Мужской"
    case Female => "Женский"
  }

  /** The union of the three steps' data. */
  datatype FormState = FormState(
    phone: string,
    firstName: string,
    lastName: string,
    gender: Gender,
    workplace: string,
    address: string,
    amount: int,
    term: int)

  /** The keys of the record; the same names key a page's error messages. */
  datatype Field =
    | PhoneField | FirstNameField | LastNameField | GenderField
    | WorkplaceField | AddressField | AmountField | TermField

  /** A field's value, whichever of the record's types it has. */
  datatype Value = Text(s: string) | Choice(g: Gender) | Number(n: int)

  /** Reads one field of the record. */
  function Get(d: FormState, f: Field): Value {
    match f
    case PhoneField => Text(d.phone)
    case FirstNameField => Text(d.firstName)
    case LastNameField => Text(d.lastName)
    case GenderField => Choice(d.gender)
    case WorkplaceField => Text(d.workplace)
    case AddressField => Text(d.address)
    case AmountField => Number(d.amount)
    case TermField => Number(d.term)
  }

  /** Two records that agree on every field are the same record. */
  lemma SameFieldsSameRecord(a: FormState, b: FormState)
    requires forall f :: Get(a, f) == Get(b, f)
    ensures a == b
  {
    assert Get(a, PhoneField) == Get(b, PhoneField);
    assert Get(a, FirstNameField) == Get(b, FirstNameField);
    assert Get(a, LastNameField) == Get(b, LastNameField);
    assert Get(a, GenderField) == Get(b, GenderField);
    assert Get(a, WorkplaceField) == Get(b, WorkplaceField);
    assert Get(a, AddressField) == Get(b, AddressField);
    assert Get(a, AmountField) == Get(b, AmountField);
    assert Get(a, TermField) == Get(b, TermField);
  }

  /** A page's `FormErrors`: one message per failing field, no key otherwise. */
  type FieldErrors = map<Field, string>
}
