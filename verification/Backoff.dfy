/** The reconnect policy and the state carried from attempt to attempt (src/connection/session_manager.hpp). */
module Backoff {
  import opened Bytes

  /** maxAttempts = 0 means no limit. */
  datatype Policy = Policy(initial: real, maxDelay: real, multiplier: real, maxAttempts: nat)

  /** A reconnect_state.  The owner names the `connect` call that created it. */
  datatype Plan = Plan(owner: nat, policy: Policy, attempts: nat, delay: real)

  function Min(a: real, b: real): (m: real) {
    if b < a then b else a
  }

  /** The state of a new `connect` with a policy, or of one that has just reached a live session. */
  function Fresh(owner: nat, policy: Policy): (p: Plan) {
    Plan(owner, policy, 0, policy.initial)
  }

  /** schedule_reconnect's counting: None when the attempts are used up. */
  function Schedule(p: Plan): (r: Option<Plan>) {
    if p.policy.maxAttempts != 0 && p.attempts + 1 > p.policy.maxAttempts then None
    else Some(p.(attempts := p.attempts + 1))
  }

  /** What the expired backoff timer does to the delay before re-dialling. */
  function Fire(p: Plan): (r: Plan) {
    p.(delay := Min(p.delay * p.policy.multiplier, p.policy.maxDelay))
  }

  /** The delay before the k-th consecutive re-dial. */
  function Wait(p: Policy, k: nat): (d: real)
    requires k >= 1
  {
    if k == 1 then p.initial else Min(Wait(p, k - 1) * p.multiplier, p.maxDelay)
  }

  /** The exponential delay before the k-th re-dial, without a cap: initial * multiplier^(k - 1). */
  function Exponential(p: Policy, k: nat): (d: real)
    requires k >= 1
  {
    if k == 1 then p.initial else Exponential(p, k - 1) * p.multiplier
  }

  /** Exponential backoff capped at the maximum delay. */
  function Capped(p: Policy, k: nat): (d: real)
    requires k >= 1
  {
    Min(Exponential(p, k), p.maxDelay)
  }

  /** Capping before or after one more multiplication is the same, for a growing delay or one still below the cap. */
  lemma CapThenGrow(x: real, grown: real, w: real, next: real, m: real, cap: real)
    requires 0.0 <= x && 0.0 <= m && 0.0 <= cap && (m >= 1.0 || x <= cap)
    requires grown == x * m && w == Min(x, cap) && next == Min(w * m, cap)
    ensures next == Min(grown, cap)
  {
    if cap < x {
      assert cap * m >= cap;
      assert x * m >= x;
    }
  }

  /** One more multiplication of a delay: it stays non-negative, and shrinks by a factor of at most one. */
  lemma GrowBounds(x: real, grown: real, m: real)
    requires 0.0 <= x && 0.0 <= m && grown == x * m
    ensures 0.0 <= grown && (m <= 1.0 ==> grown <= x)
  {
  }

  /** The k-th wait and the k-th exponential delay, as numbers: what the next step makes of them. */
  lemma Unfold(p: Policy, k: nat) returns (w: real, x: real, next: real, grown: real)
    requires k >= 1
    ensures w == Wait(p, k) && x == Exponential(p, k) && next == Wait(p, k + 1) && grown == Exponential(p, k + 1)
    ensures grown == x * p.multiplier && next == Min(w * p.multiplier, p.maxDelay)
  {
    w, x, next, grown := Wait(p, k), Exponential(p, k), Wait(p, k + 1), Exponential(p, k + 1);
  }

  /** The exponential delay is never negative, and never above the initial one if the multiplier is at
      most one. */
  lemma {:induction false} ExponentialBounds(p: Policy, k: nat)
    requires k >= 1 && 0.0 <= p.initial && 0.0 <= p.multiplier
    ensures 0.0 <= Exponential(p, k)
    ensures p.multiplier <= 1.0 ==> Exponential(p, k) <= p.initial
  {
    if k > 1 {
      ExponentialBounds(p, k - 1);
      var w, x, next, grown := Unfold(p, k - 1);
      GrowBounds(x, grown, p.multiplier);
    }
  }

  /** From the second on, no exponential delay is above the second if the multiplier is at most one. */
  lemma {:induction false} ShrinkingBounds(p: Policy, k: nat)
    requires k >= 2 && 0.0 <= p.initial && 0.0 <= p.multiplier <= 1.0
    ensures 0.0 <= Exponential(p, k) <= Exponential(p, 2)
  {
    ExponentialBounds(p, k);
    if k > 2 {
      ShrinkingBounds(p, k - 1);
      var w, x, next, grown := Unfold(p, k - 1);
      GrowBounds(x, grown, p.multiplier);
    }
  }

  /** A wait that obeys the capped law is followed by one that does, if delays grow or the law did not cap it. */
  lemma CappedStep(p: Policy, k: nat, w: real, x: real)
    requires k >= 1 && w == Wait(p, k) && x == Exponential(p, k) && w == Min(x, p.maxDelay)
    requires 0.0 <= x && 0.0 <= p.multiplier && 0.0 <= p.maxDelay && (p.multiplier >= 1.0 || x <= p.maxDelay)
    ensures Wait(p, k + 1) == Capped(p, k + 1)
  {
    var v, y, next, grown := Unfold(p, k);
    CapThenGrow(y, grown, v, next, p.multiplier, p.maxDelay);
  }

  lemma {:induction false} WaitIsCapped(p: Policy, k: nat)
    requires k >= 1 && 0.0 <= p.initial <= p.maxDelay && 0.0 <= p.multiplier
    ensures Wait(p, k) == Capped(p, k)
  {
    if k > 1 {
      WaitIsCapped(p, k - 1);
      ExponentialBounds(p, k - 1);
      CappedStep(p, k - 1, Wait(p, k - 1), Exponential(p, k - 1));
    }
  }

  /** Backoff law: every wait is the exponential delay capped at max_delay exactly when the initial
      delay is itself within the cap. */
  lemma BackoffLaw(p: Policy)
    requires 0.0 <= p.initial && 0.0 <= p.multiplier
    ensures (forall k :: k >= 1 ==> Wait(p, k) == Capped(p, k)) <==> p.initial <= p.maxDelay
  {
    if p.initial <= p.maxDelay {
      forall k | k >= 1
        ensures Wait(p, k) == Capped(p, k)
      {
        WaitIsCapped(p, k);
      }
    } else {
      assert Wait(p, 1) != Capped(p, 1);
    }
  }

  /** When every wait from the second on can obey the capped law: the delays do not shrink, or the second
      of them is within the cap already, or there is no delay at all after the first. */
  predicate SettlesUnderCap(p: Policy) {
    p.multiplier >= 1.0 || p.initial * p.multiplier <= p.maxDelay || p.maxDelay == 0.0
  }

  /** With a maximum delay of zero only the first wait can be more than nothing. */
  lemma {:induction false} NoDelay(p: Policy, k: nat)
    requires k >= 2 && 0.0 <= p.initial && 0.0 <= p.multiplier && p.maxDelay == 0.0
    ensures Wait(p, k) == 0.0 == Capped(p, k)
  {
    var w, x, next, grown := Unfold(p, k - 1);
    ExponentialBounds(p, k - 1);
    ExponentialBounds(p, k);
    if k > 2 {
      NoDelay(p, k - 1);
    } else {
      GrowBounds(w, w * p.multiplier, p.multiplier);
    }
  }

  /** The second wait always obeys the capped law. */
  lemma SecondWaitCapped(p: Policy)
    ensures Exponential(p, 2) == p.initial * p.multiplier && Wait(p, 2) == Capped(p, 2)
  {
    var w, x, next, grown := Unfold(p, 1);
  }

  /** Where delays settle under the cap, a later exponential delay is within it unless delays grow. */
  lemma LaterBounds(p: Policy, k: nat)
    requires k >= 2 && 0.0 <= p.initial && 0.0 <= p.multiplier
    requires p.multiplier >= 1.0 || p.initial * p.multiplier <= p.maxDelay
    ensures 0.0 <= Exponential(p, k) && (p.multiplier >= 1.0 || Exponential(p, k) <= p.maxDelay)
  {
    ExponentialBounds(p, k);
    if p.multiplier < 1.0 {
      SecondWaitCapped(p);
      ShrinkingBounds(p, k);
    }
  }

  lemma {:induction false} LaterWaitsCapped(p: Policy, k: nat)
    requires k >= 2 && 0.0 <= p.initial && 0.0 <= p.maxDelay && 0.0 <= p.multiplier && SettlesUnderCap(p)
    ensures Wait(p, k) == Capped(p, k)
  {
    if p.maxDelay == 0.0 {
      NoDelay(p, k);
    } else if k > 2 {
      LaterWaitsCapped(p, k - 1);
      LaterBounds(p, k - 1);
      CappedStep(p, k - 1, Wait(p, k - 1), Exponential(p, k - 1));
    } else {
      SecondWaitCapped(p);
    }
  }

  /** Capping a shrinking delay and then shrinking it again loses to shrinking it twice and capping. */
  lemma ShrunkTooFar(x: real, m: real, cap: real)
    requires 0.0 <= m < 1.0 && 0.0 < cap < x
    ensures Min(cap * m, cap) < Min(x * m, cap) || m == 0.0
  {
    assert m > 0.0 ==> cap * m < x * m;
    assert cap * m < cap;
  }

  lemma ThirdWaitTooShort(p: Policy)
    requires 0.0 <= p.initial && 0.0 < p.maxDelay && 0.0 <= p.multiplier && !SettlesUnderCap(p)
    ensures Wait(p, 3) < Capped(p, 3)
  {
    var w1, x1, w2, x2 := Unfold(p, 1);
    var v2, y2, w3, x3 := Unfold(p, 2);
    ShrunkTooFar(x2, p.multiplier, p.maxDelay);
  }

  /** The law from the second wait on, the first being waited in full however long it is: every later wait
      is the capped exponential one exactly when the delays settle under the cap. */
  lemma LaterWaitsLaw(p: Policy)
    requires 0.0 <= p.initial && 0.0 <= p.multiplier && 0.0 <= p.maxDelay
    ensures (forall k :: k >= 2 ==> Wait(p, k) == Capped(p, k)) <==> SettlesUnderCap(p)
  {
    if SettlesUnderCap(p) {
      forall k | k >= 2
        ensures Wait(p, k) == Capped(p, k)
      {
        LaterWaitsCapped(p, k);
      }
    } else {
      ThirdWaitTooShort(p);
    }
  }
}
