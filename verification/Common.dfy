// Option and Result, the shapes the Rust sources return.
module Common {
  datatype Option<+T> = None | Some(value: T) {
    predicate IsFailure() {
      None?
    }

    function PropagateFailure<U>(): Option<U>
      requires None?
    {
      None
    }

    function Extract(): T
      requires Some?
    {
      value
    }
  }

  datatype Result<+T, +E> = Ok(value: T) | Err(error: E) {
    predicate IsFailure() {
      Err?
    }

    function PropagateFailure<U>(): Result<U, E>
      requires Err?
    {
      Err(error)
    }

    function Extract(): T
      requires Ok?
    {
      value
    }
  }

  function Failure<T, E>(r: Result<T, E>): Option<E> {
    if r.Err? then Some(r.error) else None
  }

  // A check with the error it stands for; a list of them is gone through in order.
  datatype Check<+E> = Check(passes: bool, error: E)

  ghost predicate FailsFirst<E>(checks: seq<Check<E>>, k: nat) {
    k < |checks| && !checks[k].passes && forall j :: 0 <= j < k ==> checks[j].passes
  }

  // None when every check passes, else the error of the first that fails: one outcome
  // for every list.
  ghost predicate IsFirstFailure<E>(failed: Option<E>, checks: seq<Check<E>>) {
    match failed
    case None => forall k :: 0 <= k < |checks| ==> checks[k].passes
    case Some(e) => exists k: nat :: FailsFirst(checks, k) && checks[k].error == e
  }

  lemma {:induction false} FailsFirstIn<E>(checks: seq<Check<E>>, more: seq<Check<E>>, k: nat)
    requires FailsFirst(checks, k)
    ensures FailsFirst(checks + more, k) && (checks + more)[k] == checks[k]
  {
  }

  // Two lists gone through one after the other.
  lemma {:induction false} FirstFailureOfSum<E>(
      a: Option<E>, all: Option<E>, checks: seq<Check<E>>, more: seq<Check<E>>)
    requires IsFirstFailure(a, checks)
    requires if a.Some? then all == a else IsFirstFailure(all, more)
    ensures IsFirstFailure(all, checks + more)
  {
    if a.Some? {
      var k: nat :| FailsFirst(checks, k) && checks[k].error == a.value;
      FailsFirstIn(checks, more, k);
    } else if all.Some? {
      var k: nat :| FailsFirst(more, k) && more[k].error == all.value;
      assert FailsFirst(checks + more, |checks| + k) && (checks + more)[|checks| + k] == more[k];
    }
  }

  function Elements<T>(xs: seq<T>): set<T> {
    set x | x in xs
  }

  predicate Distinct<T(==)>(xs: seq<T>) {
    forall i, j :: 0 <= i < j < |xs| ==> xs[i] != xs[j]
  }

  lemma {:induction false} ElementsOfSum<T>(a: seq<T>, b: seq<T>)
    ensures Elements(a + b) == Elements(a) + Elements(b)
  {
  }
}
