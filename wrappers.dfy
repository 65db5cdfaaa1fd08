/** Values shared by every module: optional values and results that can fail. */
module Wrappers {
  datatype Option<T> = None | Some(value: T)

  /**
   * The exceptions the modelled Python code raises and the errors the
   * modelled JavaScript code throws.
   */
  datatype Error =
    | IndexError
    | KeyError
    | ValueError
    | TypeError
    | AttributeError
    | NameError
    | RecursionError
    | NotAQueryType
    | URIError

  datatype Result<T> = Ok(value: T) | Err(error: Error)

  /**
   * `f` applied to every element in order, stopping at the first failure:
   * a Python loop or comprehension that raises on the first bad element.
   */
  function MapAll<A, B>(xs: seq<A>, f: A -> Result<B>): (r: Result<seq<B>>)
    ensures r.Ok? <==> forall i :: 0 <= i < |xs| ==> f(xs[i]).Ok?
    ensures r.Ok? ==> |r.value| == |xs| && forall i :: 0 <= i < |xs| ==> f(xs[i]) == Ok(r.value[i])
    ensures r.Err? ==> exists i :: 0 <= i < |xs| && f(xs[i]) == Err(r.error) && (forall j :: 0 <= j < i ==> f(xs[j]).Ok?)
  {
    if |xs| == 0 then Ok([])
    else
      var head := f(xs[0]);
      if head.Err? then Err(head.error)
      else
        var rest := MapAll(xs[1..], f);
        assert forall i :: 1 <= i < |xs| ==> xs[i] == xs[1..][i - 1];
        if rest.Err? then
          var i :| 0 <= i < |xs[1..]| && f(xs[1..][i]) == Err(rest.error) && (forall j :: 0 <= j < i ==> f(xs[1..][j]).Ok?);
          assert f(xs[i + 1]) == Err(rest.error);
          Err(rest.error)
        else Ok([head.value] + rest.value)
  }

  /** One more successful element extends a successful run by its value. */
  lemma MapAllSnoc<A, B>(xs: seq<A>, x: A, f: A -> Result<B>)
    requires MapAll(xs, f).Ok? && f(x).Ok?
    ensures MapAll(xs + [x], f) == Ok(MapAll(xs, f).value + [f(x).value])
  {
    var ys := xs + [x];
    assert forall i :: 0 <= i < |xs| ==> ys[i] == xs[i];
    var r := MapAll(ys, f);
    assert r.Ok?;
    assert r.value == MapAll(xs, f).value + [f(x).value];
  }

  /** One failing element fails the whole run, with the error of the first failing element. */
  lemma MapAllFails<A, B>(xs: seq<A>, i: nat, f: A -> Result<B>)
    requires i < |xs| && f(xs[i]).Err?
    requires forall j :: 0 <= j < i ==> f(xs[j]).Ok?
    ensures MapAll(xs, f) == Err(f(xs[i]).error)
  {
    var r := MapAll(xs, f);
    assert r.Err?;
    var k :| 0 <= k < |xs| && f(xs[k]) == Err(r.error) && (forall j :: 0 <= j < k ==> f(xs[j]).Ok?);
    assert k == i;
  }

  /**
   * A Python loop that, element by element, either raises, skips the
   * element or appends one value to its output list.
   */
  function Collect<A, B>(xs: seq<A>, f: A -> Result<Option<B>>): Result<seq<B>>
  {
    if |xs| == 0 then Ok([])
    else
      var init := Collect(xs[..|xs| - 1], f);
      var last := f(xs[|xs| - 1]);
      if init.Err? then init
      else if last.Err? then Err(last.error)
      else if last.value.Some? then Ok(init.value + [last.value.value])
      else init
  }

  /** Once a prefix of the input has raised, the whole loop raises the same error. */
  lemma {:induction false} CollectErrPrefix<A, B>(xs: seq<A>, f: A -> Result<Option<B>>, i: nat)
    requires i <= |xs| && Collect(xs[..i], f).Err?
    ensures Collect(xs, f) == Collect(xs[..i], f)
    decreases |xs| - i
  {
    if i < |xs| {
      assert xs[..i + 1][..i] == xs[..i];
      CollectErrPrefix(xs, f, i + 1);
    } else {
      assert xs[..i] == xs;
    }
  }

  /**
   * The loop raises exactly when some element raises; otherwise its output
   * holds exactly the values appended, each for some element.
   */
  lemma {:induction false} CollectMeaning<A, B>(xs: seq<A>, f: A -> Result<Option<B>>)
    ensures Collect(xs, f).Ok? <==> forall i :: 0 <= i < |xs| ==> f(xs[i]).Ok?
    ensures Collect(xs, f).Ok? ==> forall y :: y in Collect(xs, f).value <==> exists i :: 0 <= i < |xs| && f(xs[i]) == Ok(Some(y))
    ensures Collect(xs, f).Ok? ==> |Collect(xs, f).value| <= |xs|
  {
    if |xs| > 0 {
      var init := xs[..|xs| - 1];
      CollectMeaning(init, f);
      assert forall i :: 0 <= i < |init| ==> init[i] == xs[i];
    }
  }
}
