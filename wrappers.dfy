/** Option and Result, and the Python exceptions the modelled code raises. */
module Wrappers {

  datatype Option<+T> = None | Some(value: T)

  /** The exception classes raised by the modelled functions.  `ValueError`
      carries its message because one function raises several of them. */
  datatype Error =
    | KeyError
    | IndexError
    | ValueError(message: string)
    | ZeroDivisionError
    | AttributeError
    | StopIteration
    | RuntimeError

  datatype Result<+T> = Ok(value: T) | Err(error: Error)

  /** `[f(x) for x in xs]` where `f` may raise: the first failure is raised. */
  function MapAll<A, B>(f: A -> Result<B>, xs: seq<A>): (r: Result<seq<B>>)
    ensures r.Ok? ==> |r.value| == |xs|
    decreases |xs|
  {
    if xs == [] then Ok([])
    else
      var n := |xs| - 1;
      match MapAll(f, xs[..n])
      case Err(e) => Err(e)
      case Ok(done) =>
        match f(xs[n])
        case Err(e) => Err(e)
        case Ok(y) => Ok(done + [y])
  }

  /** The list is built exactly when every element converts, entry `i` being
      that of element `i`; otherwise the first failure is the one raised. */
  lemma {:induction false} MapAllMeaning<A, B>(f: A -> Result<B>, xs: seq<A>)
    ensures MapAll(f, xs).Ok? <==> forall i :: 0 <= i < |xs| ==> f(xs[i]).Ok?
    ensures MapAll(f, xs).Ok? ==> forall i :: 0 <= i < |xs| ==> MapAll(f, xs).value[i] == f(xs[i]).value
    ensures MapAll(f, xs).Err? ==>
      exists i :: 0 <= i < |xs| && f(xs[i]).Err? && MapAll(f, xs).error == f(xs[i]).error &&
        forall j :: 0 <= j < i ==> f(xs[j]).Ok?
    decreases |xs|
  {
    if xs != [] {
      var n := |xs| - 1;
      MapAllMeaning(f, xs[..n]);
      assert forall i :: 0 <= i < n ==> xs[..n][i] == xs[i];
    }
  }

  /** The concatenation of `f(x)` over `xs` where `f` may raise: the first
      failure is raised. */
  function FlatMapAll<A, B>(f: A -> Result<seq<B>>, xs: seq<A>): (r: Result<seq<B>>)
    decreases |xs|
  {
    if xs == [] then Ok([])
    else
      var n := |xs| - 1;
      match FlatMapAll(f, xs[..n])
      case Err(e) => Err(e)
      case Ok(done) =>
        match f(xs[n])
        case Err(e) => Err(e)
        case Ok(ys) => Ok(done + ys)
  }

  /** The concatenation is built exactly when every part is, and then holds
      exactly the entries of the parts; otherwise the first failure is raised. */
  lemma {:induction false} FlatMapAllMeaning<A, B>(f: A -> Result<seq<B>>, xs: seq<A>)
    ensures FlatMapAll(f, xs).Ok? <==> forall i :: 0 <= i < |xs| ==> f(xs[i]).Ok?
    ensures FlatMapAll(f, xs).Ok? ==> forall y ::
      y in FlatMapAll(f, xs).value <==> exists i :: 0 <= i < |xs| && y in f(xs[i]).value
    ensures FlatMapAll(f, xs).Err? ==>
      exists i :: 0 <= i < |xs| && f(xs[i]).Err? && FlatMapAll(f, xs).error == f(xs[i]).error &&
        forall j :: 0 <= j < i ==> f(xs[j]).Ok?
    decreases |xs|
  {
    if xs != [] {
      var n := |xs| - 1;
      FlatMapAllMeaning(f, xs[..n]);
      assert forall i :: 0 <= i < n ==> xs[..n][i] == xs[i];
    }
  }
}
