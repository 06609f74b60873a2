/** The ordered fallback chain shared by the client's audio loader and the
    proxy's mirror prober: candidates are tried one at a time, in order, and the
    first one whose attempt succeeds wins. */
module Fallback {
  import opened Wrappers

  /** The position of the first candidate whose attempt succeeds, if any. */
  function FirstSuccess<T, U>(candidates: seq<T>, attempt: T -> Option<U>): (r: Option<nat>)
    ensures r.Some? ==> r.value < |candidates| && attempt(candidates[r.value]).Some?
    ensures r.Some? ==> forall j :: 0 <= j < r.value ==> attempt(candidates[j]).None?
    ensures r.None? <==> forall j :: 0 <= j < |candidates| ==> attempt(candidates[j]).None?
  {
    if candidates == [] then None
    else if attempt(candidates[0]).Some? then Some(0)
    else match FirstSuccess(candidates[1..], attempt)
      case None => None
      case Some(k) => Some(k + 1)
  }

  /** The value the winning attempt produced. */
  function FirstValue<T, U>(candidates: seq<T>, attempt: T -> Option<U>): (r: Option<U>)
    ensures r.Some? <==> FirstSuccess(candidates, attempt).Some?
    ensures r.Some? ==> r == attempt(candidates[FirstSuccess(candidates, attempt).value])
  {
    match FirstSuccess(candidates, attempt)
    case None => None
    case Some(k) => attempt(candidates[k])
  }

  /** How many attempts the chain makes: up to and including the winner, or all
      of them when nothing succeeds. */
  function AttemptCount<T, U>(candidates: seq<T>, attempt: T -> Option<U>): (n: nat)
    ensures n <= |candidates|
  {
    match FirstSuccess(candidates, attempt)
    case None => |candidates|
    case Some(k) => k + 1
  }

  /** The chain stops at a candidate that succeeds after all earlier ones failed. */
  lemma FirstSuccessAt<T, U>(candidates: seq<T>, attempt: T -> Option<U>, i: nat)
    requires i < |candidates| && attempt(candidates[i]).Some?
    requires forall j :: 0 <= j < i ==> attempt(candidates[j]).None?
    ensures FirstSuccess(candidates, attempt) == Some(i)
    ensures FirstValue(candidates, attempt) == attempt(candidates[i])
    ensures AttemptCount(candidates, attempt) == i + 1
  {
  }

  /** When every candidate fails, all of them are tried and nothing is found. */
  lemma AllFail<T, U>(candidates: seq<T>, attempt: T -> Option<U>)
    requires forall j :: 0 <= j < |candidates| ==> attempt(candidates[j]).None?
    ensures FirstValue(candidates, attempt) == None
    ensures AttemptCount(candidates, attempt) == |candidates|
  {
  }
}
