/** Option and Result values shared by every module of the model. */
module Wrappers {
  /** A value that may be absent (`undefined` or `null` in the source). */
  datatype Option<T> = None | Some(value: T) {
    function GetOr(default: T): T { if Some? then value else default }

    /** The value as a list of at most one element. */
    function ToSeq(): (r: seq<T>)
      ensures |r| <= 1 && (Some? <==> |r| == 1) && (Some? ==> r[0] == value)
    {
      if Some? then [value] else []
    }
  }

  /** The outcome of an operation that the source may abort by throwing an `Error`. */
  datatype Result<T> = Success(value: T) | Failure(error: string)

  /** The first present value of `f` over `xs`, in order: what a loop with an early return finds. */
  function FirstSome<T, U>(xs: seq<T>, f: T -> Option<U>): Option<U> {
    if |xs| == 0 then None
    else match f(xs[0])
      case Some(v) => Some(v)
      case None => FirstSome(xs[1..], f)
  }

  /** A value is found exactly when some element has one; it is the first element's that has one. */
  lemma {:induction false} FirstSomeFirst<T, U>(xs: seq<T>, f: T -> Option<U>)
    ensures FirstSome(xs, f).Some? <==> exists k :: 0 <= k < |xs| && f(xs[k]).Some?
    ensures FirstSome(xs, f).Some? ==>
      exists k :: 0 <= k < |xs| && f(xs[k]) == FirstSome(xs, f) && forall m :: 0 <= m < k ==> f(xs[m]).None?
  {
    if |xs| > 0 && f(xs[0]).None? {
      var rest := xs[1..];
      FirstSomeFirst(rest, f);
      if exists k :: 0 <= k < |xs| && f(xs[k]).Some? {
        var k :| 0 <= k < |xs| && f(xs[k]).Some?;
        assert rest[k - 1] == xs[k];
      }
      if FirstSome(rest, f).Some? {
        var k :| 0 <= k < |rest| && f(rest[k]) == FirstSome(rest, f) && forall m :: 0 <= m < k ==> f(rest[m]).None?;
        assert xs[k + 1] == rest[k];
        forall m | 0 <= m < k + 1 ensures f(xs[m]).None? {
          if m > 0 { assert xs[m] == rest[m - 1]; }
        }
      }
    }
  }
}
