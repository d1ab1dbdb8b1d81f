/** Vocabulary shared by the scoring service, the gateway and the training script. */
module Common {

  datatype Option<+T> = None | Some(value: T)

  /** A computation that either produces a value or fails with an error (a raised exception). */
  datatype Result<+T, +E> = Ok(value: T) | Err(error: E)

  /** The three triage outcomes, 'auto_block', 'manual_review' and 'auto_approve' on the wire. */
  datatype Decision = AutoBlock | ManualReview | AutoApprove

  /** Position of a decision on the approve < review < block scale. */
  function Severity(d: Decision): (s: nat)
    ensures s <= 2
    ensures (s == 0 <==> d == AutoApprove) && (s == 2 <==> d == AutoBlock)
  {
    match d
    case AutoApprove => 0
    case ManualReview => 1
    case AutoBlock => 2
  }

  /** `sub` is obtained from `s` by deleting some elements, keeping the order of the rest. */
  predicate IsSubsequence<T(==)>(sub: seq<T>, s: seq<T>)
    decreases |s|
  {
    if sub == [] then true
    else if s == [] then false
    else if sub[0] == s[0] then IsSubsequence(sub[1..], s[1..])
    else IsSubsequence(sub, s[1..])
  }

  /** Keeps the elements of `s` that satisfy `keep`, in order (a filter / comprehension with a condition). */
  function Filter<T(==,!new)>(s: seq<T>, keep: T -> bool): (r: seq<T>)
    ensures |r| <= |s|
    ensures forall x :: x in r <==> x in s && keep(x)
    ensures IsSubsequence(r, s)
  {
    if s == [] then []
    else if keep(s[0]) then [s[0]] + Filter(s[1..], keep)
    else Filter(s[1..], keep)
  }
}
