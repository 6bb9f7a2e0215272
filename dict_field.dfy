/**
 * `DictField`: a field whose stored (SON) form is the value itself. Both
 * conversions are the identity and every value, None included, is valid.
 */
module DictField {
  import opened Values

  /** `to_son`: the storage form of a value is the value. */
  function ToSon(value: Value): (son: Value)
    ensures son == value
  {
    value
  }

  /** `from_son`: the value read back from storage is the stored form. */
  function FromSon(son: Value): (value: Value)
    ensures value == son
  {
    son
  }

  /** `validate`: no value is rejected. */
  function Validate(value: Value): (valid: bool)
    ensures valid
    ensures value.Null? ==> valid
  {
    true
  }

  /** Storing a value and reading it back gives the value. */
  lemma RoundTrip(value: Value)
    ensures FromSon(ToSon(value)) == value
  {
  }

  /** Reading a stored form and storing it again gives the stored form. */
  lemma ReverseRoundTrip(son: Value)
    ensures ToSon(FromSon(son)) == son
  {
  }
}
