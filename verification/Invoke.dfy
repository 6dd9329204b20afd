/** pyrogram/session/session.py, _invoke: how often a request is sent again, and for
    how long its floods are slept through. */
module Invoke {

  const MAX_RETRIES: nat := 10

  /** What one send comes back with: the result, a flood wait of so many seconds, a
      failure worth retrying, or any other error. */
  datatype Answer = Sent | Flood(amount: nat) | Failure | Error

  /** Seconds slept through floods. */
  function Slept(answers: seq<Answer>): nat {
    if answers == [] then 0
    else
      var last := answers[|answers| - 1];
      Slept(answers[..|answers| - 1]) + if last.Flood? then last.amount else 0
  }

  function Failures(answers: seq<Answer>): nat {
    if answers == [] then 0
    else Failures(answers[..|answers| - 1]) + if answers[|answers| - 1].Failure? then 1 else 0
  }

  function Tries(retries: int): nat { if retries > 1 then retries else 1 }

  function Budget(threshold: real): real { threshold * MAX_RETRIES as real }

  /** Whether the i-th answer is the last: a flood is refused when it alone is over the
      threshold or all together are over ten times that; a negative threshold refuses
      none. */
  predicate Ends(answers: seq<Answer>, i: nat, retries: int, threshold: real)
    requires i < |answers|
  {
    match answers[i]
    case Sent => true
    case Error => true
    case Failure => Failures(answers[..i]) + 1 == Tries(retries)
    case Flood(amount) =>
      threshold >= 0.0 && (amount as real > threshold || (Slept(answers[..i]) + amount) as real > Budget(threshold))
  }

  /** Put over the answers up to and with the i-th: it is the last exactly if it is the
      result or no answer to retry, if it makes the failures as many as the tries, or
      if it is a flood that no negative threshold lets through and that is over the
      threshold alone or over ten times it with all others. */
  lemma EndsExactly(answers: seq<Answer>, i: nat, retries: int, threshold: real)
    requires i < |answers|
    ensures var a, upTo := answers[i], answers[..i + 1];
            Ends(answers, i, retries, threshold) <==>
              || a == Sent || a == Error
              || (a == Failure && Failures(upTo) == if retries >= 1 then retries else 1)
              || (a.Flood? && threshold >= 0.0 && !(a.amount as real <= threshold && Slept(upTo) as real <= 10.0 * threshold))
  {
    assert answers[..i + 1][..i] == answers[..i];
  }

  /** The sends of one request, against the answers they would get; done tells whether
      the loop came to an end within them. The loop never runs out of retries without
      raising: the error behind it is not reached. */
  method Run(answers: seq<Answer>, retries: int, threshold: real) returns (done: bool, used: nat)
    ensures done ==> used < |answers| && Ends(answers, used, retries, threshold)
    ensures !done ==> used == |answers|
    ensures forall j :: 0 <= j < used ==> !Ends(answers, j, retries, threshold)
  {
    hide Budget;
    var left: int := Tries(retries);
    var slept: nat := 0;
    done, used := false, 0;
    while left > 0 && used < |answers|
      invariant 0 <= used <= |answers| && left == Tries(retries) - Failures(answers[..used]) && left > 0
      invariant slept == Slept(answers[..used])
      invariant forall j :: 0 <= j < used ==> !Ends(answers, j, retries, threshold)
      decreases |answers| - used
    {
      assert answers[..used + 1][..used] == answers[..used];
      match answers[used] {
        case Sent => return true, used;
        case Error => return true, used;
        case Failure =>
          left := left - 1;
          if left == 0 { return true, used; }
        case Flood(amount) =>
          if threshold >= 0.0 {
            if amount as real > threshold { return true, used; }
            if (slept + amount) as real > Budget(threshold) { return true, used; }
          }
          slept := slept + amount;
      }
      used := used + 1;
    }
  }

  /** While the loop goes on: fewer failures than tries, no flood over the threshold,
      and all of them within the budget. Once every flood is at least a second long,
      that bounds the number of sends. */
  lemma {:induction false} GoingOn(answers: seq<Answer>, n: nat, retries: int, threshold: real)
    requires n <= |answers| && forall j :: 0 <= j < n ==> !Ends(answers, j, retries, threshold)
    ensures Failures(answers[..n]) < Tries(retries)
    ensures threshold >= 0.0 ==> Slept(answers[..n]) as real <= Budget(threshold)
    ensures threshold >= 0.0 ==>
      forall j :: 0 <= j < n && answers[j].Flood? ==> answers[j].amount as real <= threshold
    ensures (forall j :: 0 <= j < n && answers[j].Flood? ==> answers[j].amount >= 1) ==>
      n <= Failures(answers[..n]) + Slept(answers[..n])
  {
    if n > 0 {
      GoingOn(answers, n - 1, retries, threshold);
      assert answers[..n][..n - 1] == answers[..n - 1];
      assert !Ends(answers, n - 1, retries, threshold);
    } else if threshold >= 0.0 {
      assert Budget(threshold) >= 0.0;
    }
  }

  /** So a request that is answered by floods of a second or more and by failures is
      given up after at most retries - 1 plus ten thresholds' sends. */
  lemma GivenUp(answers: seq<Answer>, retries: int, threshold: real)
    requires threshold >= 0.0 && forall a :: a in answers && a.Flood? ==> a.amount >= 1
    requires (|answers| - (Tries(retries) - 1)) as real > Budget(threshold)
    ensures exists i :: 0 <= i < |answers| && Ends(answers, i, retries, threshold)
  {
    if forall i :: 0 <= i < |answers| ==> !Ends(answers, i, retries, threshold) {
      GoingOn(answers, |answers|, retries, threshold);
      assert false;
    }
  }
}
