/** What becomes of a job: the retry policy both queue drivers promise. */
module Fate {
  import opened QueueTypes

  /** The handler's answer to a job that has already completed so many attempts. */
  type Handler = (Job, nat) -> Disposition

  datatype Outcome = Acked(attempts: nat) | Buried(attempts: nat)

  /** The fate of a job after k attempts, all answered Retry: a driver-free reading of the policy. */
  function Settle(h: Handler, max: nat, j: Job, k: nat): (r: Outcome)
    ensures r.attempts > k && (k <= max ==> r.attempts <= max + 1)
    decreases max - k
  {
    match h(j, k)
    case Ack => Acked(k + 1)
    case Retry => if k + 1 > max then Buried(k + 1) else Settle(h, max, j, k + 1)
    case _ => Buried(k + 1)
  }

  function FateOf(h: Handler, max: nat, j: Job): Outcome {
    Settle(h, max, j, 0)
  }

  /** A copy a driver may hold: within the limit, and sent back every time so far. */
  predicate Underway(h: Handler, max: nat, p: Payload) {
    p.attempts <= max && forall k :: 0 <= k < p.attempts ==> h(p.job, k).Retry?
  }

  /** Attempts answered Retry within the limit leave the fate as it was. */
  lemma {:induction false} RetriesKeepFate(h: Handler, max: nat, j: Job, from: nat, to: nat)
    requires from <= to <= max
    requires forall k: nat :: from <= k < to ==> h(j, k).Retry?
    ensures Settle(h, max, j, from) == Settle(h, max, j, to)
    decreases (to as int) - (from as int)
  {
    if from < to {
      RetriesKeepFate(h, max, j, from + 1, to);
    }
  }

  /** p descends from the copy q: every attempt in between was answered Retry, within the limit. */
  predicate Leads(h: Handler, max: nat, q: Payload, p: Payload) {
    && q.job == p.job && q.attempts <= p.attempts
    && (p == q || p.attempts <= max)
    && forall k :: q.attempts <= k < p.attempts ==> h(p.job, k).Retry?
  }

  lemma {:induction false} LeadsKeepsFate(h: Handler, max: nat, q: Payload, p: Payload)
    requires Leads(h, max, q, p)
    ensures Settle(h, max, q.job, q.attempts) == Settle(h, max, p.job, p.attempts)
  {
    if p != q { RetriesKeepFate(h, max, p.job, q.attempts, p.attempts); }
  }

  /**
   * The fate in closed form. With n the first attempt not answered Retry, the job is settled by that answer
   * if n is within the retry limit; otherwise it is buried after max + 1 attempts.
   */
  lemma {:induction false} FateByFirstAnswer(h: Handler, max: nat, j: Job, n: nat)
    requires forall k :: 0 <= k < n ==> h(j, k).Retry?
    requires n > max || !h(j, n).Retry?
    ensures FateOf(h, max, j) ==
      if n > max then Buried(max + 1) else if h(j, n).Ack? then Acked(n + 1) else Buried(n + 1)
  {
    var stop := if n > max then max else n;
    RetriesKeepFate(h, max, j, 0, stop);
  }

  /** The fate is Acked at n exactly when the n-th answer is the first that is not Retry, and it is Ack. */
  lemma {:induction false} AckedIff(h: Handler, max: nat, j: Job, n: nat)
    ensures FateOf(h, max, j) == Acked(n) <==>
      1 <= n <= max + 1 && h(j, n - 1).Ack? && forall k :: 0 <= k < n - 1 ==> h(j, k).Retry?
  {
    var f := FirstAnswer(h, max, j, 0);
    FateByFirstAnswer(h, max, j, f);
    if 1 <= n <= max + 1 && h(j, n - 1).Ack? && (forall k :: 0 <= k < n - 1 ==> h(j, k).Retry?) {
      FateByFirstAnswer(h, max, j, n - 1);
    }
  }

  function FirstAnswer(h: Handler, max: nat, j: Job, k: nat): (n: nat)
    ensures n >= k && (n > max || !h(j, n).Retry?)
    ensures forall i :: k <= i < n ==> h(j, i).Retry?
    decreases max + 1 - k
  {
    if k > max || !h(j, k).Retry? then k else FirstAnswer(h, max, j, k + 1)
  }
}
