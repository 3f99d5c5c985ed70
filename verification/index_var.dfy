/** `IndexVar` of src/variable/index_var.rs: a variable written `$n`,
    naming index `n` of a variable container. */
module IndexVariable {
  import opened Wrappers
  import opened UsizeFromStr

  datatype IndexVar = IndexVar(index: nat)

  /** `VarIdxErr`: the token does not start with `$`, or the text after it
      is not a `usize`. */
  datatype VarIdxErr = InvalidVariableName(token: string) | ConvertErr(kind: IntErrorKind)

  /** `IndexVar::try_from_ref`: a token that does not start with `$`
      (the empty token included) is an invalid name; otherwise the text
      after the `$` must read as a `usize`, and its parse error is kept. */
  function TryFromRef(token: string): (r: Result<IndexVar, VarIdxErr>)
    ensures r == Err(InvalidVariableName(token)) <==> |token| == 0 || token[0] != '$'
    ensures r.Ok? <==> |token| > 0 && token[0] == '$' && ParseUsize(token[1..]).Ok?
    ensures r.Ok? ==> r.value.index == ParseUsize(token[1..]).value && r.value.index <= UsizeMax
    ensures r.Err? && r.error.ConvertErr? <==>
      |token| > 0 && token[0] == '$' && ParseUsize(token[1..]).Err?
    ensures r.Err? && r.error.ConvertErr? ==> r.error.kind == ParseUsize(token[1..]).error
  {
    if |token| > 0 && token[0] == '$' then
      match ParseUsize(token[1..])
      case Ok(n) => Ok(IndexVar(n))
      case Err(kind) => Err(ConvertErr(kind))
    else Err(InvalidVariableName(token))
  }

  /** `From<IndexVar> for usize`. */
  function ToUsize(v: IndexVar): nat
  {
    v.index
  }

  /** `$` followed by the rendering of any `usize` is read as the variable
      of that index, and converting it back gives the index. */
  lemma RoundTrip(n: nat)
    requires n <= UsizeMax
    ensures TryFromRef("$" + Decimal(n)) == Ok(IndexVar(n))
    ensures ToUsize(TryFromRef("$" + Decimal(n)).value) == n
  {
    assert ("$" + Decimal(n))[1..] == Decimal(n);
    DecimalRoundTrip(n);
  }

  /** A `$` alone, or followed by anything but an optionally signed run of
      digits, is a conversion error. */
  lemma DollarWithoutNumber(rest: string)
    requires |rest| == 0 || rest == "+" || exists i :: 0 <= i < |Unsigned(rest)| && !IsDigit(Unsigned(rest)[i])
    ensures TryFromRef("$" + rest).Err? && TryFromRef("$" + rest).error.ConvertErr?
  {
    assert ("$" + rest)[1..] == rest;
  }
}
