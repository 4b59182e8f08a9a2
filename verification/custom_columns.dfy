// active.go: what a request may store in an active custom column.
module CustomColumns {
  import opened Wrappers

  datatype FieldType = TextField | NumberField | DateField | CurrencyField | PicklistField | BooleanField

  datatype Column = Column(name: string, fieldType: FieldType)

  // A decoded request value, and a bound SQL value.
  datatype Json = JString(s: string) | JFloat(f: real) | JInt(n: int) | JBool(b: bool) | JOther

  datatype Sql = Null | Text(s: string) | Int(n: int) | Number(f: real) | Bool(b: bool) | Time(t: int)

  // Go's conversion of a float to an integer drops the fraction.
  function Trunc(f: real): int {
    if f >= 0.0 then f.Floor else -((-f).Floor)
  }

  // The whole number on the way to zero.
  lemma TruncIs(f: real)
    ensures f >= 0.0 ==> 0.0 <= Trunc(f) as real <= f < Trunc(f) as real + 1.0
    ensures f <= 0.0 ==> Trunc(f) as real - 1.0 < f <= Trunc(f) as real <= 0.0
  {
  }

  // None when the value's shape does not fit the column.
  function SqlValue(t: FieldType, v: Json): Option<Sql> {
    match (t, v)
    case (CurrencyField, JFloat(f)) => Some(Int(Trunc(f)))
    case (NumberField, JFloat(f)) => Some(Number(f))
    case (DateField, JString(s)) => Some(Text(s))
    case (BooleanField, JBool(b)) => Some(Bool(b))
    case (TextField, JString(s)) => Some(Text(s))
    case (PicklistField, JString(s)) => Some(Text(s))
    case _ => None
  }

  // Numbers go into number and currency columns, the latter without their
  // fraction; text into text, date and picklist columns; truth values into
  // boolean ones. Nothing else fits anywhere.
  lemma FitsIff(t: FieldType, v: Json)
    ensures SqlValue(t, v).Some? <==>
      || (v.JFloat? && t in {NumberField, CurrencyField})
      || (v.JString? && t in {TextField, DateField, PicklistField})
      || (v.JBool? && t == BooleanField)
    ensures SqlValue(t, v).Some? ==>
      SqlValue(t, v).value ==
        if v.JString? then Text(v.s)
        else if v.JBool? then Bool(v.b)
        else if t == NumberField then Number(v.f)
        else Int(Trunc(v.f))
  {
  }
}
