/**
 The percentage figures, in micro-percent where the services use integer division:

  - the voting power of a validator, its tokens relative to all bonded tokens,
  - the uptime of a validator, the signed part of the window,
  - the turnout of a proposal, its four tallies relative to the bonded tokens,
  - the share of an account in a total, which is not rounded.
 */
module Percentages {
  const WHOLE := 100000000

  function Sum(xs: seq<int>): int {
    if xs == [] then 0 else Sum(xs[..|xs| - 1]) + xs[|xs| - 1]
  }

  // ----- voting power: tokens * 10^8 / bonded, rounded down -----

  function VotingPower(tokens: int, bonded: int): int
    requires tokens >= 0 && bonded > 0
  {
    tokens * WHOLE / bonded
  }

  function VotingPowers(tokens: seq<int>, bonded: int): seq<int>
    requires bonded > 0 && forall t :: t in tokens ==> t >= 0
  {
    seq(|tokens|, i requires 0 <= i < |tokens| => assert tokens[i] in tokens; VotingPower(tokens[i], bonded))
  }

  /** The floors of n shares lose less than n bonded parts in total. */
  lemma {:induction false} FloorsOfShares(tokens: seq<int>, bonded: int)
    requires bonded > 0 && forall t :: t in tokens ==> t >= 0
    ensures var floors := Sum(VotingPowers(tokens, bonded));
            bonded * floors <= Sum(tokens) * WHOLE
            && (tokens != [] ==> Sum(tokens) * WHOLE < bonded * floors + bonded * |tokens|)
  {
    if tokens != [] {
      var n := |tokens| - 1;
      var t := tokens[n];
      assert t in tokens && forall x :: x in tokens[..n] ==> x in tokens;
      FloorsOfShares(tokens[..n], bonded);
      assert VotingPowers(tokens, bonded)[..n] == VotingPowers(tokens[..n], bonded);
      var before, p := Sum(VotingPowers(tokens[..n], bonded)), VotingPower(t, bonded);
      FloorBounds(t * WHOLE, bonded);
      Distribute(bonded, before, p, n);
    }
  }

  lemma FloorBounds(a: int, b: int)
    requires b > 0
    ensures b * (a / b) <= a < b * (a / b) + b
  {
  }

  lemma Distribute(b: int, x: int, y: int, n: int)
    ensures b * (x + y) == b * x + b * y && b * (n + 1) == b * n + b
  {
  }

  /** The voting powers of all bonded validators total at most 100 percent and less than n micro-percent short of it. */
  lemma VotingPowerTotal(tokens: seq<int>, bonded: int)
    requires bonded > 0 && (forall t :: t in tokens ==> t >= 0) && Sum(tokens) == bonded
    ensures WHOLE - |tokens| < Sum(VotingPowers(tokens, bonded)) <= WHOLE
  {
    var floors := Sum(VotingPowers(tokens, bonded));
    FloorsOfShares(tokens, bonded);
    Distribute(bonded, floors, |tokens|, 0);
    CancelBounds(bonded, floors, WHOLE, |tokens|);
  }

  lemma CancelBounds(b: int, x: int, y: int, n: int)
    requires b > 0 && b * x <= b * y && b * y < b * (x + n)
    ensures x <= y < x + n
  {
  }

  lemma MulMonotone(b: int, x: int, y: int)
    requires b > 0 && x <= y
    ensures b * x <= b * y && (x < y ==> b * x < b * y)
  {
  }

  // ----- uptime: the part of the window that was signed, rounded toward zero -----

  /** `BigInt` division rounds toward zero, also when more blocks are missed than the window has. */
  function Quotient(a: int, b: int): int
    requires b > 0
  {
    if a >= 0 then a / b else -(-a / b)
  }

  function Uptime(window: int, missed: int): int
    requires window > 0
  {
    Quotient((window - missed) * WHOLE, window)
  }

  lemma QuotientMonotone(a: int, b: int, d: int)
    requires d > 0 && a <= b
    ensures Quotient(a, d) <= Quotient(b, d)
  {
    if a >= 0 {
      FloorsInOrder(a, b, d);
    } else if b < 0 {
      FloorsInOrder(-b, -a, d);
    } else {
      FloorsInOrder(0, -a, d);
      FloorsInOrder(0, b, d);
    }
  }

  lemma FloorsInOrder(a: int, b: int, d: int)
    requires d > 0 && 0 <= a <= b
    ensures 0 <= a / d <= b / d
  {
    FloorBounds(a, d);
    FloorBounds(b, d);
    if b / d < a / d { MulMonotone(d, b / d + 1, a / d); Distribute(d, b / d, 1, 0); }
    if a / d < 0 { MulMonotone(d, a / d + 1, 0); Distribute(d, a / d, 1, 0); }
  }

  /** Missing more never raises the uptime, and only a validator that missed nothing has the whole of it. */
  lemma UptimeOfMissed(window: int, missed: int, more: int)
    requires window > 0 && missed <= more
    ensures Uptime(window, more) <= Uptime(window, missed)
    ensures 0 <= missed <= window ==> 0 <= Uptime(window, missed) <= WHOLE
    ensures 0 <= missed <= window ==> (Uptime(window, missed) == WHOLE <==> missed == 0)
  {
    QuotientMonotone((window - more) * WHOLE, (window - missed) * WHOLE, window);
    if 0 <= missed <= window {
      var signed := (window - missed) * WHOLE;
      FloorsInOrder(0, signed, window);
      FloorBounds(signed, window);
      var u := signed / window;
      if u >= WHOLE { MulMonotone(window, WHOLE, u); }
      if u < WHOLE { MulMonotone(window, u + 1, WHOLE); Distribute(window, u, 1, 0); }
      if u > WHOLE { MulMonotone(window, WHOLE + 1, u); Distribute(window, WHOLE, 1, 0); }
    }
  }

  // ----- turnout: the four tallies together, rounded down once -----

  function Turnout(yes: int, no: int, abstain: int, veto: int, bonded: int): int
    requires bonded > 0
  {
    (yes + no + abstain + veto) * WHOLE / bonded
  }

  /** Rounding once gives at least the sum of the rounded parts and at most 3 more. */
  lemma TurnoutOfParts(yes: int, no: int, abstain: int, veto: int, bonded: int)
    requires bonded > 0 && yes >= 0 && no >= 0 && abstain >= 0 && veto >= 0
    ensures var parts := Sum(VotingPowers([yes, no, abstain, veto], bonded));
            parts <= Turnout(yes, no, abstain, veto, bonded) <= parts + 3
  {
    var tallies := [yes, no, abstain, veto];
    FloorsOfShares(tallies, bonded);
    SumOfFour(yes, no, abstain, veto);
    var total := (yes + no + abstain + veto) * WHOLE;
    var parts := Sum(VotingPowers(tallies, bonded));
    FloorBounds(total, bonded);
    var q := total / bonded;
    Distribute(bonded, parts, 4, 0);
    Distribute(bonded, q, 1, 0);
    if q < parts { MulMonotone(bonded, q + 1, parts); }
    if q > parts + 3 { MulMonotone(bonded, parts + 4, q); }
  }

  lemma SumOfFour(a: int, b: int, c: int, d: int)
    ensures Sum([a, b, c, d]) == a + b + c + d
  {
    assert [a, b, c, d][..3] == [a, b, c] && [a, b, c][..2] == [a, b] && [a, b][..1] == [a] && [a][..0] == [];
    assert Sum([a, b]) == Sum([a]) + b;
  }

  // ----- each figure as the only number between its bounds -----

  lemma FloorIs(a: int, b: int, q: int)
    requires b > 0
    ensures q == a / b <==> b * q <= a < b * (q + 1)
  {
    FloorBounds(a, b);
    Distribute(b, q, 1, 0);
    if b * q <= a < b * (q + 1) {
      if q < a / b { MulMonotone(b, q + 1, a / b); }
      if a / b < q { MulMonotone(b, a / b + 1, q); Distribute(b, a / b, 1, 0); }
    }
  }

  /** The largest number of micro-percents that the bonded tokens, times it, leave within the validator's. */
  lemma VotingPowerIs(tokens: int, bonded: int, power: int)
    requires tokens >= 0 && bonded > 0
    ensures power == VotingPower(tokens, bonded) <==>
            bonded * power <= tokens * 100000000 < bonded * (power + 1)
  {
    FloorIs(tokens * 100000000, bonded, power);
  }

  lemma TurnoutIs(yes: int, no: int, abstain: int, veto: int, bonded: int, turnout: int)
    requires bonded > 0
    ensures turnout == Turnout(yes, no, abstain, veto, bonded) <==>
            bonded * turnout <= (yes + no + abstain + veto) * 100000000 < bonded * (turnout + 1)
  {
    FloorIs((yes + no + abstain + veto) * 100000000, bonded, turnout);
  }

  /** Rounded down while blocks are signed, and up, toward zero, when more are missed than the window has. */
  lemma UptimeIs(window: int, missed: int, uptime: int)
    requires window > 0
    ensures missed <= window ==>
              (uptime == Uptime(window, missed) <==>
               window * uptime <= (window - missed) * 100000000 < window * (uptime + 1))
    ensures missed > window ==>
              (uptime == Uptime(window, missed) <==>
               window * -uptime <= (missed - window) * 100000000 < window * (1 - uptime))
  {
    FloorIs((window - missed) * 100000000, window, uptime);
    FloorIs((missed - window) * 100000000, window, -uptime);
    assert -((window - missed) * 100000000) == (missed - window) * 100000000;
  }

  /** A share of a total is the number that, times the total, is a hundred times the amount. */
  lemma ShareIs(amount: int, total: int, share: real)
    requires total != 0
    ensures share == Share(amount, total) <==> share * total as real == amount as real * 100.0
  {
    QuotientIs(amount as real * 100.0, total as real, share);
  }

  lemma QuotientIs(x: real, y: real, q: real)
    requires y != 0.0
    ensures q == x / y <==> q * y == x
  {
  }

  // ----- account statistics: shares of a total -----

  /** `amount * 100 / total`; the service stores NaN when the total is zero. */
  function Share(amount: int, total: int): real
    requires total != 0
  {
    amount as real * 100.0 / total as real
  }

  function ShareSum(amounts: seq<int>, total: int): real
    requires total != 0
  {
    if amounts == [] then 0.0 else ShareSum(amounts[..|amounts| - 1], total) + Share(amounts[|amounts| - 1], total)
  }

  lemma {:induction false} ShareSumIs(amounts: seq<int>, total: int)
    requires total != 0
    ensures ShareSum(amounts, total) == Sum(amounts) as real * 100.0 / total as real
  {
    if amounts != [] {
      ShareSumIs(amounts[..|amounts| - 1], total);
    }
  }

  lemma WholeOfItself(x: real)
    requires x != 0.0
    ensures x * 100.0 / x == 100.0
  {
  }

  /** The shares of all accounts add up to exactly 100. */
  lemma SharesAreComplete(amounts: seq<int>)
    requires Sum(amounts) != 0
    ensures ShareSum(amounts, Sum(amounts)) == 100.0
  {
    ShareSumIs(amounts, Sum(amounts));
    WholeOfItself(Sum(amounts) as real);
  }
}
