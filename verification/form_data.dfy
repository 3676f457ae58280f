/** The shared form-state container (src/context/FormDataContext.tsx): the
    default record, the shallow-merge `update` and `reset`. The container is a
    value here; each operation returns the next record. */
module FormData {
  import opened FormTypes

  /** `Partial<FormState>`: a field is present when it carries a value. */
  datatype Partial = Partial(
    phone: Option<string>,
    firstName: Option<string>,
    lastName: Option<string>,
    gender: Option<Gender>,
    workplace: Option<string>,
    address: Option<string>,
    amount: Option<int>,
    term: Option<int>)

  /** `{}`: no field present. */
  const NoChanges: Partial := Partial(None, None, None, None, None, None, None, None)

  function TextValue(o: Option<string>): Option<Value> {
    if o.Some? then Some(Text(o.value)) else None
  }

  function NumberValue(o: Option<int>): Option<Value> {
    if o.Some? then Some(Number(o.value)) else None
  }

  /** The value a partial carries for a field, if that field is present. */
  function Provided(p: Partial, f: Field): Option<Value> {
    match f
    case PhoneField => TextValue(p.phone)
    case FirstNameField => TextValue(p.firstName)
    case LastNameField => TextValue(p.lastName)
    case GenderField => if p.gender.Some? then Some(Choice(p.gender.value)) else None
    case WorkplaceField => TextValue(p.workplace)
    case AddressField => TextValue(p.address)
    case AmountField => NumberValue(p.amount)
    case TermField => NumberValue(p.term)
  }

  /** The value each field starts with: empty strings, no gender, an amount
      of 200 and a term of 10. */
  function DefaultValue(f: Field): Value {
    match f
    case GenderField => Choice(Unset)
    case AmountField => Number(200)
    case TermField => Number(10)
    case _ => Text("")
  }

  /** `defaultState`. */
  const DefaultState: FormState := FormState("", "", "", Unset, "", "", 200, 10)

  /** `{ ...prev, ...values }`: every field present in `p` takes p's value,
      every other field keeps the value it had. */
  function Update(d: FormState, p: Partial): (r: FormState)
    ensures forall f :: Get(r, f) == Provided(p, f).GetOr(Get(d, f))
  {
    FormState(
      p.phone.GetOr(d.phone),
      p.firstName.GetOr(d.firstName),
      p.lastName.GetOr(d.lastName),
      p.gender.GetOr(d.gender),
      p.workplace.GetOr(d.workplace),
      p.address.GetOr(d.address),
      p.amount.GetOr(d.amount),
      p.term.GetOr(d.term))
  }

  /** `reset`: whatever the record held, every field is back at its default. */
  function Reset(d: FormState): (r: FormState)
    ensures forall f :: Get(r, f) == DefaultValue(f)
  {
    DefaultState
  }

  /** Updating with an empty partial changes nothing. */
  lemma UpdateNothing(d: FormState)
    ensures Update(d, NoChanges) == d
  {
    SameFieldsSameRecord(Update(d, NoChanges), d);
  }

  /** Applying the same partial twice is the same as applying it once. */
  lemma UpdateIdempotent(d: FormState, p: Partial)
    ensures Update(Update(d, p), p) == Update(d, p)
  {
    var once := Update(d, p);
    SameFieldsSameRecord(Update(once, p), once);
  }

  /** `q` overriding `p`: the partial whose fields are q's where q has them
      and p's elsewhere. */
  function Merge(p: Partial, q: Partial): (m: Partial)
    ensures forall f :: Provided(m, f) == (if Provided(q, f).Some? then Provided(q, f) else Provided(p, f))
  {
    Partial(
      if q.phone.Some? then q.phone else p.phone,
      if q.firstName.Some? then q.firstName else p.firstName,
      if q.lastName.Some? then q.lastName else p.lastName,
      if q.gender.Some? then q.gender else p.gender,
      if q.workplace.Some? then q.workplace else p.workplace,
      if q.address.Some? then q.address else p.address,
      if q.amount.Some? then q.amount else p.amount,
      if q.term.Some? then q.term else p.term)
  }

  /** Two updates in a row are one update with the merged partial. */
  lemma UpdateUpdate(d: FormState, p: Partial, q: Partial)
    ensures Update(Update(d, p), q) == Update(d, Merge(p, q))
  {
    SameFieldsSameRecord(Update(Update(d, p), q), Update(d, Merge(p, q)));
  }
}
