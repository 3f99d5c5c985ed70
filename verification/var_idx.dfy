/** `VarIdx` of src/variable/var_idx.rs, a second copy of `IndexVar` with
    its own (identically shaped) error type. */
module VarIndex {
  import opened Wrappers
  import opened UsizeFromStr
  import IV = IndexVariable

  datatype VarIdx = VarIdx(index: nat)

  /** `VarIdx::try_from_ref`: `$` followed by a `usize`. */
  function TryFromRef(token: string): (r: Result<VarIdx, IV.VarIdxErr>)
    ensures r.Ok? <==> |token| > 0 && token[0] == '$' && ParseUsize(token[1..]).Ok?
    ensures r.Ok? ==> r.value.index == ParseUsize(token[1..]).value
    ensures r.Err? ==> r.error == IV.TryFromRef(token).error
  {
    match IV.TryFromRef(token)
    case Ok(v) => Ok(VarIdx(v.index))
    case Err(e) => Err(e)
  }

  /** `From<VarIdx> for usize`. */
  function ToUsize(v: VarIdx): nat
  {
    v.index
  }

  /** The two index-variable types accept the same tokens, read the same
      index from them and reject the others with the same error. */
  lemma AgreesWithIndexVar(token: string)
    ensures TryFromRef(token).Ok? <==> IV.TryFromRef(token).Ok?
    ensures TryFromRef(token).Ok? ==> ToUsize(TryFromRef(token).value) == IV.ToUsize(IV.TryFromRef(token).value)
    ensures TryFromRef(token).Err? ==> TryFromRef(token).error == IV.TryFromRef(token).error
  {
  }

  /** Every `usize` written as `$n` is read back as `VarIdx(n)`. */
  lemma RoundTrip(n: nat)
    requires n <= UsizeMax
    ensures TryFromRef("$" + Decimal(n)) == Ok(VarIdx(n))
  {
    IV.RoundTrip(n);
  }
}
