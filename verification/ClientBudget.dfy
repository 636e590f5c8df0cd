/**
 The client's resend budget: a token bucket that a capacity refusal spends from and an answer earns
 into. Each call is one atomic step, so whatever the threads do is some interleaving of these steps.
 */
module ClientBudget {
  const RETRY_TOKENS: nat := 10_000
  const RETRY_EARNED: nat := 100
  const RETRY_SPENT: nat := 1_000

  datatype Step = Refusal | Answer

  function Next(tokens: nat, step: Step): nat {
    match step
    case Refusal => if tokens < RETRY_SPENT then 0 else tokens - RETRY_SPENT
    case Answer => if tokens + RETRY_EARNED < RETRY_TOKENS then tokens + RETRY_EARNED else RETRY_TOKENS
  }

  /** A refusal may be resent while more than half the tokens were left. */
  predicate Allows(tokens: nat) {
    tokens > RETRY_TOKENS / 2
  }

  // ---------------------------------------------------------------- any interval of any interleaving

  function Tokens(start: nat, steps: seq<Step>): nat {
    if steps == [] then start else Next(Tokens(start, steps[..|steps| - 1]), steps[|steps| - 1])
  }

  /** The refusals of the interval that were allowed a resend. */
  function Allowed(start: nat, steps: seq<Step>): nat {
    if steps == [] then 0
    else
      var before := steps[..|steps| - 1];
      Allowed(start, before) + if steps[|steps| - 1].Refusal? && Allows(Tokens(start, before)) then 1 else 0
  }

  function Answers(steps: seq<Step>): nat {
    if steps == [] then 0
    else Answers(steps[..|steps| - 1]) + if steps[|steps| - 1].Answer? then 1 else 0
  }

  lemma {:induction false} TokensStayBounded(start: nat, steps: seq<Step>)
    requires start <= RETRY_TOKENS
    ensures Tokens(start, steps) <= RETRY_TOKENS
  {
    if steps != [] {
      TokensStayBounded(start, steps[..|steps| - 1]);
    }
  }

  /** What was spent on allowed resends was had at the start or earned since. */
  lemma {:induction false} SpendingIsFunded(start: nat, steps: seq<Step>)
    requires start <= RETRY_TOKENS
    ensures Tokens(start, steps) + RETRY_SPENT * Allowed(start, steps) <= start + RETRY_EARNED * Answers(steps)
  {
    if steps != [] {
      SpendingIsFunded(start, steps[..|steps| - 1]);
    }
  }

  /** In any interval of any interleaving, resends allowed are fewer than six and a tenth of the answers. */
  lemma {:induction false} ResendsAreThrottled(start: nat, steps: seq<Step>)
    requires start <= RETRY_TOKENS
    ensures 10 * Allowed(start, steps) < 60 + Answers(steps)
  {
    if steps != [] {
      var before := steps[..|steps| - 1];
      ResendsAreThrottled(start, before);
      SpendingIsFunded(start, before);
    }
  }

  lemma OneMore(start: nat, steps: seq<Step>, step: Step)
    ensures Tokens(start, steps + [step]) == Next(Tokens(start, steps), step)
    ensures Allowed(start, steps + [step]) ==
      Allowed(start, steps) + if step.Refusal? && Allows(Tokens(start, steps)) then 1 else 0
  {
    assert (steps + [step])[..|steps|] == steps;
  }

  /** The bound is the best there is: with a single answer six resends can be allowed. */
  lemma ThrottleIsTight() returns (steps: seq<Step>)
    ensures Answers(steps) == 1 && Allowed(RETRY_TOKENS, steps) == 6
  {
    OneMore(RETRY_TOKENS, [], Refusal);
    OneMore(RETRY_TOKENS, [] + [Refusal], Answer);
    steps := [] + [Refusal] + [Answer];
    assert ([] + [Refusal] + [Answer])[..1] == [Refusal] && [Refusal][..0] == [];
    for i := 0 to 5
      invariant Tokens(RETRY_TOKENS, steps) == 9_100 - 1_000 * i
      invariant Allowed(RETRY_TOKENS, steps) == 1 + i && Answers(steps) == 1
    {
      OneMore(RETRY_TOKENS, steps, Refusal);
      assert (steps + [Refusal])[..|steps|] == steps;
      steps := steps + [Refusal];
    }
  }

  // ---------------------------------------------------------------- the budget

  /** The budget every thread shares. `past` is every step taken so far, in the order they took effect. */
  class RetryBudget {
    var tokens: nat
    ghost var past: seq<Step>
    ghost var granted: nat

    ghost predicate Valid()
      reads this
    {
      tokens == Tokens(RETRY_TOKENS, past) && granted == Allowed(RETRY_TOKENS, past)
    }

    constructor ()
      ensures Valid() && past == [] && granted == 0
    {
      tokens := RETRY_TOKENS;
      past := [];
      granted := 0;
    }

    /** One refusal: a resend is granted or not, and whatever came before, those granted so far are fewer
        than six and a tenth of the answers. */
    method Refused() returns (allowed: bool)
      requires Valid()
      modifies this
      ensures Valid() && past == old(past) + [Refusal]
      ensures granted == old(granted) + if allowed then 1 else 0
      ensures tokens <= RETRY_TOKENS && 10 * granted < 60 + Answers(past)
    {
      TokensStayBounded(RETRY_TOKENS, past);
      OneMore(RETRY_TOKENS, past, Refusal);
      ResendsAreThrottled(RETRY_TOKENS, past + [Refusal]);
      var before := tokens;
      tokens := if before < RETRY_SPENT then 0 else before - RETRY_SPENT;
      allowed := before > RETRY_TOKENS / 2;
      past := past + [Refusal];
      granted := granted + if allowed then 1 else 0;
    }

    /** One answer: it earns, up to the budget, and grants nothing. */
    method Answered()
      requires Valid()
      modifies this
      ensures Valid() && past == old(past) + [Answer] && granted == old(granted)
      ensures old(tokens) <= tokens <= RETRY_TOKENS && (old(tokens) == tokens ==> tokens == RETRY_TOKENS)
    {
      TokensStayBounded(RETRY_TOKENS, past);
      OneMore(RETRY_TOKENS, past, Answer);
      var earned := tokens + RETRY_EARNED;
      tokens := if earned < RETRY_TOKENS then earned else RETRY_TOKENS;
      past := past + [Answer];
    }
  }
}
