/** The parts of the Python run time that the date utilities and the fee
    report depend on: dynamically typed argument values and the exceptions
    that end a call. */
module Runtime {

  datatype Option<+T> = None | Some(value: T)

  /** The exceptions the modelled functions can raise. */
  datatype Error =
    | TypeError      // an argument of the wrong Python type
    | ValueError     // a date string that does not parse
    | OverflowError  // a date past 9999-12-31
    | IndexError     // pop(0) on an empty list

  /** The outcome of a call: a value, or the exception that aborted it. */
  datatype Result<+T> = Success(value: T) | Failure(error: Error)

  /** A Python argument value, as far as `isinstance` checks can see it. */
  datatype Value =
    | Str(s: string)
    | Int(i: int)
    | Bool(b: bool)  // `bool` is a subclass of `int` in Python
    | Other          // any other object (float, list, None, ...)

  /** `isinstance(v, int)`, which holds for booleans too. */
  predicate IsInt(v: Value) {
    v.Int? || v.Bool?
  }

  /** The integer a Python int or bool stands for. */
  function AsInt(v: Value): (n: int)
    requires IsInt(v)
  {
    match v
    case Int(i) => i
    case Bool(b) => if b then 1 else 0
  }

  /** `[f(x) for x in xs]` where `f` may raise: the results in order, or
      the exception of the first element whose call raises. */
  function MapAll<A, B>(xs: seq<A>, f: A -> Result<B>): Result<seq<B>> {
    if xs == [] then Success([])
    else
      match MapAll(xs[..|xs| - 1], f)
      case Failure(e) => Failure(e)
      case Success(ys) =>
        match f(xs[|xs| - 1])
        case Failure(e) => Failure(e)
        case Success(y) => Success(ys + [y])
  }

  /** `ys` holds, one for one, the results of calling `f` on `xs`. */
  ghost predicate MapsTo<A, B>(xs: seq<A>, f: A -> Result<B>, ys: seq<B>) {
    |ys| == |xs| && forall i :: 0 <= i < |xs| ==> f(xs[i]) == Success(ys[i])
  }

  /** The traversal succeeds exactly when every call does, and then yields
      every call's result in order. */
  lemma {:induction false} MapAllSucceeds<A, B>(xs: seq<A>, f: A -> Result<B>)
    ensures MapAll(xs, f).Success? <==> forall i :: 0 <= i < |xs| ==> f(xs[i]).Success?
    ensures MapAll(xs, f).Success? ==> MapsTo(xs, f, MapAll(xs, f).value)
  {
    if xs != [] {
      var front := xs[..|xs| - 1];
      MapAllSucceeds(front, f);
      assert forall i :: 0 <= i < |front| ==> front[i] == xs[i];
    }
  }

  /** A failed traversal reports the exception of the first call that
      raises; every call before it succeeds. */
  lemma {:induction false} MapAllFails<A, B>(xs: seq<A>, f: A -> Result<B>)
    requires MapAll(xs, f).Failure?
    ensures exists i ::
      && 0 <= i < |xs| && f(xs[i]).Failure? && f(xs[i]).error == MapAll(xs, f).error
      && (forall j :: 0 <= j < i ==> f(xs[j]).Success?)
  {
    var front := xs[..|xs| - 1];
    assert forall i :: 0 <= i < |front| ==> front[i] == xs[i];
    if MapAll(front, f).Failure? {
      MapAllFails(front, f);
    } else {
      MapAllSucceeds(front, f);
      assert f(xs[|xs| - 1]).Failure? && f(xs[|xs| - 1]).error == MapAll(xs, f).error;
    }
  }

  /** Results that match the calls one for one are what the traversal yields. */
  lemma MapAllOfMapsTo<A, B>(xs: seq<A>, f: A -> Result<B>, ys: seq<B>)
    requires MapsTo(xs, f, ys)
    ensures MapAll(xs, f) == Success(ys)
  {
    MapAllSucceeds(xs, f);
    var zs := MapAll(xs, f).value;
    assert forall i :: 0 <= i < |xs| ==> zs[i] == ys[i];
    assert zs == ys;
  }

  /** When every call before position `i` succeeds and the call at `i`
      raises, the traversal raises that exception. */
  lemma {:induction false} MapAllFirstFailure<A, B>(xs: seq<A>, f: A -> Result<B>, i: nat)
    requires i < |xs| && f(xs[i]).Failure?
    requires forall k :: 0 <= k < i ==> f(xs[k]).Success?
    ensures MapAll(xs, f).Failure? && MapAll(xs, f).error == f(xs[i]).error
  {
    var front := xs[..|xs| - 1];
    assert forall k :: 0 <= k < |front| ==> front[k] == xs[k];
    if i < |xs| - 1 {
      MapAllFirstFailure(front, f, i);
    } else {
      MapAllSucceeds(front, f);
    }
  }

  /** One more successful call extends the matched results by its result. */
  lemma MapsToExtend<A, B>(xs: seq<A>, f: A -> Result<B>, i: nat, ys: seq<B>)
    requires i < |xs| && MapsTo(xs[..i], f, ys) && f(xs[i]).Success?
    ensures MapsTo(xs[..i + 1], f, ys + [f(xs[i]).value])
  {
    var ys' := ys + [f(xs[i]).value];
    forall k | 0 <= k <= i
      ensures f(xs[..i + 1][k]) == Success(ys'[k])
    {
      if k < i {
        assert xs[..i + 1][k] == xs[..i][k];
      }
    }
  }
}
