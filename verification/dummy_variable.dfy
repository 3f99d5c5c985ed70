/** `DummyVariable` of src/variable/dummy_variable.rs: the variable type of
    expressions that have none. */
module DummyVariable {
  import opened Wrappers

  datatype Dummy = Dummy

  /** `try_from_ref` refuses every token, so an expression over this
      variable type has no variables. */
  function TryFromRef(token: string): (r: Result<Dummy, ()>)
    ensures r.Err?
  {
    Err(())
  }
}
