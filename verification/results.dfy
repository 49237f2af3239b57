/** Failure-compatible wrappers used throughout the model, and the Python
    exceptions the modelled code can raise. */
module Results {

  /** An optional value: Python's `None` or a present value. */
  datatype Option<+T> = None | Some(value: T)

  /** The outcome of a Python call that either returns or raises. */
  datatype Result<+T, +E> = Ok(value: T) | Err(error: E) {

    predicate IsFailure() {
      Err?
    }

    function PropagateFailure<U>(): Result<U, E>
      requires Err?
    {
      Err(error)
    }

    function Extract(): T
      requires Ok?
    {
      value
    }
  }

  /** The exceptions raised by the modelled code, by Python class; the
      payload is the argument the Python code passes to the exception. */
  datatype PyError =
    | MissingSection(section: string)  // sqlgenerator.MissingSection
    | KeyError(key: string)            // dict or str.format lookup of an absent key
    | IndexError                       // tuple or positional index out of range
    | ValueError(message: string)      // malformed str.format template
    | TypeError                        // list() of a value that is not iterable
    | Invalid(message: string)         // ckan toolkit.Invalid raised by a validator

  /** Evaluates a list of calls in order: the values of all of them, or
      the exception of the first that raises. */
  function All<T, E>(rs: seq<Result<T, E>>): (r: Result<seq<T>, E>)
    ensures r.Ok? <==> forall k :: 0 <= k < |rs| ==> rs[k].Ok?
    ensures r.Ok? ==> |r.value| == |rs| && forall k :: 0 <= k < |rs| ==> r.value[k] == rs[k].value
    ensures r.Err? ==> exists k :: 0 <= k < |rs| && rs[k].Err? && r.error == rs[k].error
                                  && forall m :: 0 <= m < k ==> rs[m].Ok?
  {
    if |rs| == 0 then Ok([])
    else if rs[0].Err? then Err(rs[0].error)
    else
      var tail := All(rs[1..]);
      if tail.Err? then
        assert forall k :: 0 <= k < |rs[1..]| ==> rs[1..][k] == rs[k + 1];
        tail.PropagateFailure()
      else
        Ok([rs[0].value] + tail.value)
  }

  /** Evaluating one more call after a list: the first failure still
      wins, otherwise its value is appended. */
  lemma AllAppend<T, E>(rs: seq<Result<T, E>>, x: Result<T, E>)
    ensures All(rs + [x]) ==
      if All(rs).Err? then All(rs)
      else if x.Err? then Err(x.error)
      else Ok(All(rs).value + [x.value])
  {
    var all := rs + [x];
    assert forall k :: 0 <= k < |rs| ==> all[k] == rs[k];
    if All(rs).Err? {
      var k :| 0 <= k < |rs| && rs[k].Err? && All(rs).error == rs[k].error && forall m :: 0 <= m < k ==> rs[m].Ok?;
      var k' :| 0 <= k' < |all| && all[k'].Err? && All(all).error == all[k'].error && forall m :: 0 <= m < k' ==> all[m].Ok?;
      assert !(k < k') by { assert all[k] == rs[k]; }
      assert !(k' < k) by { assert k' < |rs| ==> all[k'] == rs[k']; }
    } else if x.Err? {
      var k' :| 0 <= k' < |all| && all[k'].Err? && All(all).error == all[k'].error && forall m :: 0 <= m < k' ==> all[m].Ok?;
      assert k' == |rs|;
    } else {
      assert All(all).value == All(rs).value + [x.value];
    }
  }

  /** Evaluating a single call. */
  lemma AllSingle<T, E>(x: Result<T, E>)
    ensures All([x]) == if x.Ok? then Ok([x.value]) else Err(x.error)
  {
    assert [x][1..] == [];
    assert All([x][1..]) == Ok([]);
    if x.Ok? {
      assert [x.value] + [] == [x.value];
    }
  }

  /** Six calls that all return give their six values. */
  lemma AllSix<T, E>(a: Result<T, E>, b: Result<T, E>, c: Result<T, E>,
                     d: Result<T, E>, e: Result<T, E>, f: Result<T, E>)
    requires a.Ok? && b.Ok? && c.Ok? && d.Ok? && e.Ok? && f.Ok?
    ensures All([a, b, c, d, e, f]) == Ok([a.value, b.value, c.value, d.value, e.value, f.value])
  {
    var rs := [a, b, c, d, e, f];
    forall k | 0 <= k < |rs| ensures rs[k].Ok? {
    }
    var v := All(rs).value;
    assert v == [a.value, b.value, c.value, d.value, e.value, f.value];
  }
}
