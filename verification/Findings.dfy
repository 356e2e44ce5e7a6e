/** Plausible claims about the reward contracts that are false, each with a run that shows it.
    The exact or repaired statements are in the modules named with them. */
module Findings {
  import opened Chain
  import EmissionBound
  import G = GovToken
  import opened Messages
  import S = Staking
  import Schedule
  import Snip20
  import opened StakingSolvency
  import opened Sums
  import TokenSupply
  import W = WeightMaster

  // --- lp-staking ---

  const POOL_START := S.Init(S.Config("admin", "pool", "token", []), [])

  const POOL_CALLS: seq<S.Call> :=
    [S.Call("pool", S.Callback(DepositHook("a", 2))),
     S.Call("admin", S.Notify(1)),
     S.Call("pool", S.Callback(DepositHook("b", 1))),
     S.Call("pool", S.Callback(DepositHook("c", 1))),
     S.Call("admin", S.Notify(2))]

  /** The pool of the example, without residue. */
  function Pool(supply: nat, acc: nat, users: map<Address, S.UserInfo>): S.State {
    POOL_START.(users := users, pool := S.RewardPool(0, supply, acc))
  }

  function ExampleState(n: nat): S.State {
    var half := S.REWARD_SCALE / 2;
    var a, b, c := S.UserInfo(2, 0), S.UserInfo(1, 0), S.UserInfo(1, 0);
    if n == 0 then Pool(0, 0, map[])
    else if n == 1 then Pool(2, 0, map["a" := a])
    else if n == 2 then Pool(2, half, map["a" := a])
    else if n == 3 then Pool(3, half, map["a" := a, "b" := b])
    else if n == 4 then Pool(4, half, map["a" := a, "b" := b, "c" := c])
    else Pool(4, 2 * half, map["a" := a, "b" := b, "c" := c])
  }

  lemma ExampleStep(n: nat)
    requires n < 5
    ensures S.Handle(ExampleState(n), POOL_CALLS[n]).Ok?
    ensures S.Handle(ExampleState(n), POOL_CALLS[n]).value.state == ExampleState(n + 1)
  {
  }

  lemma {:induction false} ExampleRun(n: nat)
    requires n <= 5
    ensures S.Run(POOL_START, POOL_CALLS[..n]) == Ok(ExampleState(n))
    ensures Total(POOL_START, POOL_CALLS[..n], CallAllocated) == (if n < 2 then 0 else if n < 5 then 1 else 3)
  {
    if n > 0 {
      ExampleRun(n - 1);
      ExampleStep(n - 1);
      hide S.Handle, ExampleState;
      Extend(POOL_START, POOL_CALLS[..n - 1], POOL_CALLS[n - 1], CallAllocated);
      assert POOL_CALLS[..n] == POOL_CALLS[..n - 1] + [POOL_CALLS[n - 1]];
    }
  }

  /** Claims can exceed allocations: two new stakers are credited half a token each, since the
      debts they start with are rounded down. Compare `Solvency` and `ClaimsWithinIff`. */
  lemma {:induction false} ClaimsCanExceedAllocations()
    ensures S.Run(POOL_START, POOL_CALLS).Ok?
    ensures Total(POOL_START, POOL_CALLS, CallAllocated) == 3
    ensures TotalPending(S.Run(POOL_START, POOL_CALLS).value) == 4
  {
    ExampleRun(5);
    assert POOL_CALLS[..5] == POOL_CALLS;
    hide S.Run, Total;
    var s := ExampleState(5);
    assert s.users.Keys == {"a", "b", "c"};
    SumOfThree(PendingAt(s), "a", "b", "c");
    assert PendingAt(s)("a") == 2 && PendingAt(s)("b") == 1 && PendingAt(s)("c") == 1;
  }

  // --- weight-master ---

  const NO_MESSAGES: seq<Message> := []

  const RATE_OF_TEN: seq<Schedule.ScheduleUnit> := [Schedule.ScheduleUnit(1000, 10)]

  /** Two spies of weight 1 and 8; the heavier one is dropped after one block. */
  const MASTER_CALLS: seq<W.Call> :=
    [W.Call(0, "admin", W.SetWeights([W.WeightInfo("a", 1), W.WeightInfo("b", 8)])),
     W.Call(1, "admin", W.SetWeights([W.WeightInfo("b", 0)])),
     W.Call(1, "anyone", W.Update("a"))]

  function MasterState(n: nat): W.State {
    var start := W.State("admin", 1, RATE_OF_TEN, map[]);
    if n == 0 then start
    else if n == 1 then start.(totalWeight := 10, spies := map["a" := W.SpySettings(1, 0), "b" := W.SpySettings(8, 0)])
    else if n == 2 then start.(totalWeight := 2, spies := map["a" := W.SpySettings(1, 0), "b" := W.SpySettings(0, 1)])
    else start.(totalWeight := 2, spies := map["a" := W.SpySettings(1, 1), "b" := W.SpySettings(0, 1)])
  }

  lemma OneBlockOfTen()
    ensures Schedule.Emission(RATE_OF_TEN, 0, 1) == 10
    ensures Schedule.Emission(RATE_OF_TEN, 0, 0) == 0
  {
    assert Schedule.RateAt(RATE_OF_TEN, 0) == 10;
    assert Schedule.Emission(RATE_OF_TEN, 0, 1) == Schedule.Emission(RATE_OF_TEN, 0, 0) + 10;
  }

  lemma MasterStep(n: nat)
    requires n < 3
    ensures W.Handle(MasterState(n), MASTER_CALLS[n]).Ok?
    ensures W.Handle(MasterState(n), MASTER_CALLS[n]).value.state == MasterState(n + 1)
    ensures W.Minted(W.Handle(MasterState(n), MASTER_CALLS[n]).value.messages)
            == (if n == 0 then 0 else if n == 1 then 8 else 5)
  {
    OneBlockOfTen();
    EmissionBound.MintedPair("a", 5);
    EmissionBound.MintedPair("b", 8);
    var s := MasterState(n);
    if n == 0 {
      var a, b := W.WeightInfo("a", 1), W.WeightInfo("b", 8);
      assert NO_MESSAGES + NO_MESSAGES == NO_MESSAGES;
      assert [a, b][..1] == [a] && [a][..0] == [];
      assert W.SetAll(s, 0, [a]) == Ok(W.Progress(map["a" := W.SpySettings(1, 0)], [], 1, 0));
    } else if n == 1 {
      var b := W.WeightInfo("b", 0);
      assert [b][..0] == [];
      assert W.SpyRewards(RATE_OF_TEN, W.SpySettings(8, 0), 1, 10) == Ok(8);
    } else {
      assert W.SpyRewards(RATE_OF_TEN, W.SpySettings(1, 0), 1, 2) == Ok(5);
    }
  }

  lemma {:induction false} MasterRun(n: nat)
    requires n <= 3
    ensures W.Run(MasterState(0), MASTER_CALLS[..n]) == Ok(MasterState(n))
    ensures EmissionBound.TotalMinted(MasterState(0), MASTER_CALLS[..n]) == (if n < 2 then 0 else if n == 2 then 8 else 13)
  {
    if n > 0 {
      MasterRun(n - 1);
      MasterStep(n - 1);
      hide W.Handle, MasterState, W.Minted;
      assert MASTER_CALLS[..n][..n - 1] == MASTER_CALLS[..n - 1];
    }
  }

  /** A change of weights that lowers the total and leaves another spy behind makes that spy
      be paid for past blocks at the smaller total: 13 minted where one block emits 10.
      Compare `NeverOverMints` and `MintsWithinEmissionIff`. */
  lemma {:induction false} UndisciplinedWeightsOverMint()
    ensures var s := W.Init("admin", RATE_OF_TEN);
      && W.Run(s, MASTER_CALLS).Ok?
      && EmissionBound.TotalMinted(s, MASTER_CALLS) == 13
      && Schedule.Emission(s.schedule, 0, 1) == 10
  {
    MasterRun(3);
    assert MASTER_CALLS[..3] == MASTER_CALLS;
    assert Schedule.SortSchedule(RATE_OF_TEN) == RATE_OF_TEN;
    OneBlockOfTen();
  }

  /** With a repeated address the subtraction of the old weights can underflow although the
      resulting total would be right. Compare `DistinctNeverUnderflows`. */
  lemma RepeatedAddressAborts()
    ensures var s := W.Init("admin", RATE_OF_TEN);
      var weights := [W.WeightInfo("a", 5), W.WeightInfo("a", 0)];
      W.Handle(s, W.Call(0, "admin", W.SetWeights(weights))) == Abort(Arithmetic)
  {
    var s := W.Init("admin", RATE_OF_TEN);
    var first := W.WeightInfo("a", 5);
    var weights := [first, W.WeightInfo("a", 0)];
    assert weights[..1] == [first] && [first][..0] == [];
    assert NO_MESSAGES + NO_MESSAGES == NO_MESSAGES;
    assert W.SetAll(s, 0, [first]) == Ok(W.Progress(map["a" := W.SpySettings(5, 0)], [], 5, 0));
    assert W.SetAll(s, 0, weights).value.oldWeights == 5;
  }

  // --- gov-token and cashback ---

  /** An initial balance listed twice is counted twice and held once. Compare
      `TokenSupply.NothingLostIff`. */
  lemma RepeatedBalancesFallShort()
    ensures var entries := [Snip20.InitialBalance("a", 1), Snip20.InitialBalance("a", 1)];
      var token := G.Init("admin", G.TokenInfo("Token", "TKN", 6), entries);
      token.Ok? && token.value.ledger.totalSupply == 2 && TokenSupply.Circulating(token.value.ledger) == 1
  {
    var entry := Snip20.InitialBalance("a", 1);
    var entries := [entry, entry];
    assert entries[..1] == [entry] && [entry][..0] == [];
    assert Snip20.Initial([entry]) == Ok(Snip20.Ledger(map["a" := 1], 1, map[]));
    var once: map<Address, nat> := map["a" := 1];
    assert once["a" := 1] == once && entries[1] == entry;
    var ledger := Snip20.Ledger(once, 2, map[]);
    assert Snip20.Initial(entries) == Ok(ledger);
    assert ledger.balances.Keys == {"a"};
    SumPick({"a"}, TokenSupply.BalanceAt(ledger), "a");
  }
}
