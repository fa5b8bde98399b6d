/** The retry loop around a store call: which attempts happen, what it returns and how long it waits. */
module Retry {
  import opened Errors
  import opened Options

  const MAX_STORE_ATTEMPTS: nat := 3

  /** `waited` counts the seconds of waits that ran to their end. */
  datatype Outcome = Outcome(err: Option<Error>, attempts: nat, waited: nat)

  function Pow2(k: nat): (r: nat)
    ensures r >= 1
  {
    if k == 0 then 1 else 2 * Pow2(k - 1)
  }

  /**
    The loop from attempt k on: `op(k)` is what attempt k returns, `cancelled(k)` says whether
    the context ends during the wait behind a transient failure of attempt k.
   */
  function From(k: nat, waited: nat, op: nat -> Option<Error>, cancelled: nat -> bool): Outcome
    requires k < MAX_STORE_ATTEMPTS
    decreases MAX_STORE_ATTEMPTS - k
  {
    if op(k).None? || Classify(op(k)) == Terminal then
      Outcome(op(k), k + 1, waited)
    else if cancelled(k) then
      Outcome(Some(Leaf(ContextDone)), k + 1, waited)
    else if k + 1 == MAX_STORE_ATTEMPTS then
      Outcome(op(k), k + 1, waited + Pow2(k))
    else
      From(k + 1, waited + Pow2(k), op, cancelled)
  }

  function RetryTransient(op: nat -> Option<Error>, cancelled: nat -> bool): Outcome {
    From(0, 0, op, cancelled)
  }

  /** Attempt j failed with an error worth another attempt. */
  predicate FailedTransiently(op: nat -> Option<Error>, j: nat) {
    op(j).Some? && Classify(op(j)) == Transient
  }

  lemma {:induction false} FromMeaning(k: nat, waited: nat, op: nat -> Option<Error>, cancelled: nat -> bool)
    requires k < MAX_STORE_ATTEMPTS
    requires waited == Pow2(k) - 1
    ensures
      var r := From(k, waited, op, cancelled);
      var last := r.attempts - 1;
      && k <= last < MAX_STORE_ATTEMPTS
      && (forall j: nat | k <= j < last :: FailedTransiently(op, j) && !cancelled(j))
      && (!FailedTransiently(op, last) ==> r.err == op(last) && r.waited == Pow2(last) - 1)
      && (FailedTransiently(op, last) && cancelled(last) ==>
            r.err == Some(Leaf(ContextDone)) && r.waited == Pow2(last) - 1)
      && (FailedTransiently(op, last) && !cancelled(last) ==>
            r.attempts == MAX_STORE_ATTEMPTS && r.err == op(last) && r.waited == Pow2(r.attempts) - 1)
    decreases MAX_STORE_ATTEMPTS - k
  {
    if FailedTransiently(op, k) && !cancelled(k) && k + 1 < MAX_STORE_ATTEMPTS {
      FromMeaning(k + 1, waited + Pow2(k), op, cancelled);
    }
  }

  /**
    At most three attempts; every attempt but the last failed transiently and was waited out in
    full; success and a terminal failure end the loop at once; n failures that were all waited
    out cost 2^n - 1 seconds, the wait behind the last of three included.
   */
  lemma RetryTransientMeaning(op: nat -> Option<Error>, cancelled: nat -> bool)
    ensures
      var r := RetryTransient(op, cancelled);
      var last := r.attempts - 1;
      && 0 <= last < MAX_STORE_ATTEMPTS
      && (forall j: nat | j < last :: FailedTransiently(op, j) && !cancelled(j))
      && (r.err == None <==> op(last) == None)
      && (op(last).Some? && Classify(op(last)) == Terminal ==> r.err == op(last))
      && (FailedTransiently(op, last) ==> cancelled(last) || r.attempts == MAX_STORE_ATTEMPTS)
      && (Classify(r.err) == Terminal <==> op(last).Some? && Classify(op(last)) == Terminal)
      && r.waited == Pow2(if FailedTransiently(op, last) && !cancelled(last) then r.attempts else last) - 1
  {
    FromMeaning(0, 0, op, cancelled);
  }
}
