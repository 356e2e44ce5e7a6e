/** The reward query against what a redeem would pay once the sources have reported. */
module StakingQuery {
  import opened Chain
  import opened Messages
  import opened Staking
  import opened StakingSolvency
  import opened Division

  function Sum(amounts: seq<nat>): nat {
    if amounts == [] then 0 else Sum(amounts[..|amounts| - 1]) + amounts[|amounts| - 1]
  }

  /** One more answer never lowers the sum, so an overflow on the way is an overflow of the whole. */
  lemma {:induction false} PrefixSum(amounts: seq<nat>, i: nat)
    requires i < |amounts|
    ensures Sum(amounts[..i + 1]) == Sum(amounts[..i]) + amounts[i] <= Sum(amounts)
  {
    assert amounts[..i + 1][..i] == amounts[..i];
    if i + 1 < |amounts| {
      var rest := amounts[..|amounts| - 1];
      PrefixSum(rest, i);
      assert rest[..i + 1] == amounts[..i + 1] && rest[..i] == amounts[..i];
    } else {
      assert amounts[..i + 1] == amounts;
    }
  }

  /** How many sources have something to report. */
  function Reporting(amounts: seq<nat>): nat {
    if amounts == [] then 0
    else Reporting(amounts[..|amounts| - 1]) + (if amounts[|amounts| - 1] > 0 then 1 else 0)
  }

  /** The pool after the sources have notified it, one after the other. */
  function UpdateAll(pool: RewardPool, amounts: seq<nat>): Result<RewardPool> {
    if amounts == [] then Ok(pool)
    else
      var before :- UpdateAll(pool, amounts[..|amounts| - 1]);
      UpdateRewards(before, amounts[|amounts| - 1])
  }

  /** `steps` is `scaled` over the supply, short of what `reporting` separate divisions round off. */
  ghost predicate Brackets(supply: nat, steps: nat, scaled: nat, reporting: nat) {
    supply * steps <= scaled <= supply * steps + reporting * (supply - 1)
  }

  lemma OneMoreStep(supply: nat, steps: nat, scaled: nat, reporting: nat, more: nat)
    requires supply > 0 && Brackets(supply, steps, scaled, reporting)
    ensures Brackets(supply, steps + more / supply, scaled + more, reporting + 1)
  {
    DivideRemainder(more, supply);
    assert supply * (steps + more / supply) == supply * steps + supply * (more / supply);
    assert (reporting + 1) * (supply - 1) == reporting * (supply - 1) + (supply - 1);
  }

  lemma NothingYet(supply: nat)
    ensures Brackets(supply, 0, 0, 0)
  {
  }

  /** What is known of the pool once `reporting` sources have reported `total` between them. */
  ghost predicate Reported(pool: RewardPool, after: RewardPool, total: nat, reporting: nat) {
    && after.incTokenSupply == pool.incTokenSupply
    && after.accRewardPerShare >= pool.accRewardPerShare
    && (reporting == 0 ==> after == pool && total == 0)
    && (reporting > 0 ==>
          && after.residue == 0
          && Brackets(pool.incTokenSupply, after.accRewardPerShare - pool.accRewardPerShare,
                      (total + pool.residue) * REWARD_SCALE, reporting))
  }

  lemma UpdateDivides(pool: RewardPool, amount: nat)
    requires pool.incTokenSupply > 0 && amount > 0 && UpdateRewards(pool, amount).Ok?
    ensures var more := (amount + pool.residue) * REWARD_SCALE;
      UpdateRewards(pool, amount).value
      == RewardPool(0, pool.incTokenSupply, pool.accRewardPerShare + more / pool.incTokenSupply)
  {
  }

  lemma ReportOne(pool: RewardPool, mid: RewardPool, total: nat, reporting: nat, amount: nat)
    requires pool.incTokenSupply > 0 && Reported(pool, mid, total, reporting)
    requires amount > 0 && UpdateRewards(mid, amount).Ok?
    ensures Reported(pool, UpdateRewards(mid, amount).value, total + amount, reporting + 1)
  {
    hide Brackets, UpdateRewards;
    UpdateDivides(mid, amount);
    var steps := mid.accRewardPerShare - pool.accRewardPerShare;
    var more := (amount + mid.residue) * REWARD_SCALE;
    if reporting == 0 {
      NothingYet(pool.incTokenSupply);
    }
    var scaled := if reporting == 0 then 0 else (total + pool.residue) * REWARD_SCALE;
    OneMoreStep(pool.incTokenSupply, steps, scaled, reporting, more);
  }

  /** Each report is divided by the supply on its own, and loses less than one step by it. */
  lemma {:induction false} StepsOf(pool: RewardPool, amounts: seq<nat>)
    requires pool.incTokenSupply > 0 && UpdateAll(pool, amounts).Ok?
    ensures Reported(pool, UpdateAll(pool, amounts).value, Sum(amounts), Reporting(amounts))
  {
    if amounts != [] {
      var before := amounts[..|amounts| - 1];
      StepsOf(pool, before);
      if amounts[|amounts| - 1] > 0 {
        ReportOne(pool, UpdateAll(pool, before).value, Sum(before), Reporting(before), amounts[|amounts| - 1]);
      }
    }
  }

  /** The single division of the query against the separate divisions of the execution. */
  lemma {:induction false} QueryStep(scaled: nat, supply: nat, steps: nat, reporting: nat)
    requires supply > 0 && reporting > 0 && Brackets(supply, steps, scaled, reporting)
    ensures steps <= scaled / supply <= steps + reporting - 1
  {
    DivideGalois(scaled, supply, steps);
    DivideRemainder(scaled, supply);
    assert supply * (scaled / supply) < supply * (steps + reporting) by {
      assert reporting * (supply - 1) == reporting * supply - reporting;
      assert supply * (steps + reporting) == supply * steps + reporting * supply;
    }
    CancelFactorStrict(scaled / supply, steps + reporting, supply);
  }

  /** A user's share of a difference in the accumulator. */
  lemma ShareOfDifference(locked: nat, acc: nat, more: nat, limit: nat)
    requires acc <= more <= acc + limit
    ensures locked * acc / REWARD_SCALE <= locked * more / REWARD_SCALE
    ensures locked * more / REWARD_SCALE <= locked * acc / REWARD_SCALE + locked * limit / REWARD_SCALE + 1
  {
    assert locked * acc <= locked * more <= locked * acc + locked * limit by {
      MultiplyMonotone(acc, more, locked);
      MultiplyMonotone(more, acc + limit, locked);
      assert locked * (acc + limit) == locked * acc + locked * limit;
    }
  }

  /** The query is never short, and beyond the payment by at most the stake's share of the
      divisions it saves. */
  ghost predicate WithinRoundings(queried: int, paid: int, locked: nat, reporting: nat) {
    && paid <= queried
    && (reporting > 0 ==> queried <= paid + locked * (reporting - 1) / REWARD_SCALE + 1)
  }

  /** The query, asked with the sources' answers, forecasts a payment: exactly if one source has
      something to report, or none and no residue waits, or nothing is staked. */
  ghost predicate Forecasts(s: State, u: Address, answers: seq<nat>, paid: int)
    requires QueryPendingRewards(s, u, Sum(answers)).Ok?
  {
    var queried := QueryPendingRewards(s, u, Sum(answers)).value;
    var reporting := Reporting(answers);
    && (reporting == 1 || s.pool.incTokenSupply == 0 || (reporting == 0 && s.pool.residue == 0) ==> queried == paid)
    && WithinRoundings(queried, paid, UserOf(s.users, u).locked, reporting)
  }

  /** The accumulator that the query computes with. */
  function QueriedAcc(pool: RewardPool, newRewards: nat): nat {
    if pool.incTokenSupply == 0 then pool.accRewardPerShare
    else pool.accRewardPerShare + (newRewards + pool.residue) * REWARD_SCALE / pool.incTokenSupply
  }

  lemma QueryIs(s: State, u: Address, newRewards: nat)
    requires QueryPendingRewards(s, u, newRewards).Ok?
    ensures QueryPendingRewards(s, u, newRewards).value
            == UserOf(s.users, u).locked * QueriedAcc(s.pool, newRewards) / REWARD_SCALE - UserOf(s.users, u).debt
  {
  }

  /** The query's accumulator against that of the reported pool. */
  ghost predicate Close(acc: nat, queried: nat, reporting: nat, exact: bool) {
    && acc <= queried
    && (exact ==> queried == acc)
    && (reporting > 0 ==> queried <= acc + (reporting - 1))
  }

  lemma QueryIsClose(pool: RewardPool, amounts: seq<nat>)
    requires UpdateAll(pool, amounts).Ok?
    ensures var reporting := Reporting(amounts);
      Close(UpdateAll(pool, amounts).value.accRewardPerShare, QueriedAcc(pool, Sum(amounts)), reporting,
            reporting == 1 || pool.incTokenSupply == 0 || (reporting == 0 && pool.residue == 0))
  {
    hide UpdateAll, Brackets, Sum, Reporting;
    if pool.incTokenSupply == 0 {
      NoSteps(pool, amounts);
    } else {
      StepsOf(pool, amounts);
      if Reporting(amounts) > 0 {
        var steps := UpdateAll(pool, amounts).value.accRewardPerShare - pool.accRewardPerShare;
        QueryStep((Sum(amounts) + pool.residue) * REWARD_SCALE, pool.incTokenSupply, steps, Reporting(amounts));
      }
    }
  }

  /** Close accumulators make close shares. */
  lemma CloseShares(locked: nat, debt: int, acc: nat, queried: nat, reporting: nat, exact: bool)
    requires Close(acc, queried, reporting, exact)
    ensures var asked, paid := locked * queried / REWARD_SCALE - debt, locked * acc / REWARD_SCALE - debt;
      WithinRoundings(asked, paid, locked, reporting) && (exact ==> asked == paid)
  {
    if reporting > 0 {
      ShareOfDifference(locked, acc, queried, reporting - 1);
    } else {
      ShareOfDifference(locked, acc, queried, queried - acc);
    }
  }

  lemma {:induction false} PendingAfterReports(s: State, u: Address, amounts: seq<nat>)
    requires Valid(s) && UpdateAll(s.pool, amounts).Ok?
    requires QueryPendingRewards(s, u, Sum(amounts)).Ok?
    ensures Forecasts(s, u, amounts, PendingAt(s.(pool := UpdateAll(s.pool, amounts).value))(u))
  {
    hide UpdateAll, Valid, QueryPendingRewards, QueriedAcc, Close, WithinRoundings;
    var reporting := Reporting(amounts);
    QueryIs(s, u, Sum(amounts));
    QueryIsClose(s.pool, amounts);
    CloseShares(UserOf(s.users, u).locked, UserOf(s.users, u).debt,
                UpdateAll(s.pool, amounts).value.accRewardPerShare, QueriedAcc(s.pool, Sum(amounts)), reporting,
                reporting == 1 || s.pool.incTokenSupply == 0 || (reporting == 0 && s.pool.residue == 0));
  }

  /** With one source reporting, or none and no residue, the query is what a redeem pays.
      With several it is never less, and more by at most the stake's share of the roundings. */
  lemma {:induction false} QueryAgrees(s: State, u: Address, amounts: seq<nat>, requested: Option<nat>)
    requires Valid(s) && UpdateAll(s.pool, amounts).Ok?
    requires RedeemStake(s.(pool := UpdateAll(s.pool, amounts).value), u, requested).Ok?
    requires QueryPendingRewards(s, u, Sum(amounts)).Ok?
    ensures var reported := s.(pool := UpdateAll(s.pool, amounts).value);
      Forecasts(s, u, amounts, RewardTo(RedeemStake(reported, u, requested).value.messages, u))
  {
    NotifiedStaysValid(s, amounts);
    PendingAfterReports(s, u, amounts);
    HookSettles(s.(pool := UpdateAll(s.pool, amounts).value), RedeemHook(u, requested), u);
  }

  lemma {:induction false} NoSteps(pool: RewardPool, amounts: seq<nat>)
    requires pool.incTokenSupply == 0 && UpdateAll(pool, amounts).Ok?
    ensures var after := UpdateAll(pool, amounts).value;
      after.accRewardPerShare == pool.accRewardPerShare && after.incTokenSupply == 0
  {
    if amounts != [] {
      NoSteps(pool, amounts[..|amounts| - 1]);
    }
  }

  lemma {:induction false} NotifiedStaysValid(s: State, amounts: seq<nat>)
    requires Valid(s) && UpdateAll(s.pool, amounts).Ok?
    ensures Valid(s.(pool := UpdateAll(s.pool, amounts).value))
  {
    if amounts != [] {
      var before := amounts[..|amounts| - 1];
      var last := amounts[|amounts| - 1];
      NotifiedStaysValid(s, before);
      UpdateKeepsValid(s.(pool := UpdateAll(s.pool, before).value), last);
    }
  }
}
