/** Failure-compatible wrappers and the error values of the lock engine.

    The engine reports every failure through one dynamic error type carrying
    a message; each failure site has its own constructor here, named after
    that message, so that lemmas can say which failure a given input
    produces. */
module Errors {

  datatype Option<+T> = None | Some(value: T)

  /** Every error the core can raise, named after the message it carries. */
  datatype Error =
    // line lexer: an uncommented line of no known shape
    | UnexpectedLine(line: string)
    // entry parser
    | EofScanningIsProduction
    | UnexpectedProductionMarker
    | EofScanningIsLocked
    | ProductionMarkerInHeader
    | UnexpectedLineInHeader
    | EofScanningHeader
    | UnexpectedLineInValues
    // profile store (profile names appear as they are displayed)
    | UnexpectedConfigHeader(header: string)
    | MissingAccessKeyId
    | MissingSecretAccessKey
    | ConfigNotFound(name: string)
    | CredentialsNotFound(name: string)
    // lock status change
    | UnknownProfiles(names: seq<string>)

  datatype Result<+T> = Ok(value: T) | Err(error: Error) {
    predicate IsFailure() {
      Err?
    }

    function PropagateFailure<U>(): Result<U>
      requires Err?
    {
      Err(error)
    }

    function Extract(): T
      requires Ok?
    {
      value
    }
  }

  /** Applies `f` to every element in order and stops at the first failure,
      as collecting an iterator of results (or `?` inside a loop) does. */
  function Collect<A, B>(xs: seq<A>, f: A -> Result<B>): (r: Result<seq<B>>)
    ensures r.Ok? <==> forall i :: 0 <= i < |xs| ==> f(xs[i]).Ok?
    ensures r.Ok? ==> |r.value| == |xs| && forall i :: 0 <= i < |xs| ==> f(xs[i]) == Ok(r.value[i])
    ensures forall k :: 0 <= k < |xs| && f(xs[k]).Err? && (forall j :: 0 <= j < k ==> f(xs[j]).Ok?) ==>
              r == Err(f(xs[k]).error)
  {
    if xs == [] then Ok([])
    else
      match f(xs[0])
      case Err(e) => Err(e)
      case Ok(y) =>
        var rest := Collect(xs[1..], f);
        assert forall i :: 1 <= i < |xs| ==> xs[1..][i - 1] == xs[i];
        match rest
        case Err(e) => Err(e)
        case Ok(ys) => Ok([y] + ys)
  }

  /** When every element succeeds, `Collect` gives exactly the element results. */
  lemma CollectOk<A, B>(xs: seq<A>, f: A -> Result<B>, ys: seq<B>)
    requires |ys| == |xs| && forall i :: 0 <= i < |xs| ==> f(xs[i]) == Ok(ys[i])
    ensures Collect(xs, f) == Ok(ys)
  {
    var r := Collect(xs, f);
    assert r.Ok?;
    assert r.value == ys;
  }

  /** The first failing element decides the error of `Collect`. */
  lemma CollectErr<A, B>(xs: seq<A>, f: A -> Result<B>, k: nat)
    requires k < |xs| && f(xs[k]).Err? && forall j :: 0 <= j < k ==> f(xs[j]).Ok?
    ensures Collect(xs, f) == Err(f(xs[k]).error)
  {
  }

  lemma {:induction false} CollectAppend<A, B>(xs: seq<A>, ys: seq<A>, f: A -> Result<B>, us: seq<B>, vs: seq<B>)
    requires Collect(xs, f) == Ok(us) && Collect(ys, f) == Ok(vs)
    ensures Collect(xs + ys, f) == Ok(us + vs)
  {
    var zs := xs + ys;
    forall i | 0 <= i < |zs| ensures f(zs[i]) == Ok((us + vs)[i]) {
      if i < |xs| {
        assert zs[i] == xs[i];
      } else {
        assert zs[i] == ys[i - |xs|];
      }
    }
    CollectOk(zs, f, us + vs);
  }
}
