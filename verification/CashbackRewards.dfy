/** The rewards of burning cashback: what is collected is paid out or still there, burning never
    dilutes those who stay, and splitting a burn gains nothing. */
module CashbackRewards {
  import opened Chain
  import opened Division
  import opened Snip20
  import opened Cashback
  import H = History
  import T = TokenSupply

  lemma {:induction false} BooksAreLedger(admin: Address, entries: seq<InitialBalance>)
    requires InitialBooks(admin, entries).Ok?
    ensures Initial(entries) == Ok(InitialBooks(admin, entries).value.ledger)
  {
    if entries != [] {
      BooksAreLedger(admin, entries[..|entries| - 1]);
    }
  }

  // --- Supply and collected rewards, over whole runs ---

  function Paid(messages: seq<Message>): nat {
    if messages == [] then 0
    else (if messages[0].TransferReward? then messages[0].reward else 0) + Paid(messages[1..])
  }

  function PaidBy(s: State, call: Call): nat {
    if Handle(s, call).Ok? then Paid(Handle(s, call).value.messages) else 0
  }

  /** All rewards that a run of committed calls pays. */
  function TotalPaid(s: State, calls: seq<Call>): nat {
    if calls == [] then 0
    else
      var before := calls[..|calls| - 1];
      TotalPaid(s, before) + if Run(s, before).Ok? then PaidBy(Run(s, before).value, calls[|calls| - 1]) else 0
  }

  function NotifiedBy(call: Call): nat {
    if call.request.Notify? then call.request.granted else 0
  }

  function TotalNotified(calls: seq<Call>): nat {
    if calls == [] then 0 else TotalNotified(calls[..|calls| - 1]) + NotifiedBy(calls[|calls| - 1])
  }

  ghost function Gap(l: Ledger): int {
    l.totalSupply - T.Circulating(l)
  }

  /** A share never exceeds the whole. */
  lemma RewardWithin(burnAmount: nat, rewardBalance: nat, totalSupply: nat)
    requires burnAmount <= totalSupply && RewardOf(burnAmount, rewardBalance, totalSupply).Ok?
    ensures RewardOf(burnAmount, rewardBalance, totalSupply).value <= rewardBalance
  {
    MultiplyMonotone(burnAmount, totalSupply, rewardBalance);
    DivideRemainder(burnAmount * rewardBalance, totalSupply);
    CancelFactor(RewardOf(burnAmount, rewardBalance, totalSupply).value, rewardBalance, totalSupply);
  }

  lemma PaidOne(m: Message)
    ensures Paid([m]) == if m.TransferReward? then m.reward else 0
  {
  }

  /** When a burn commits: the burner holds the tokens, there is a supply to divide by, and the
      product fits. The reward is never more than what was collected. */
  lemma BurnCommitsIff(s: State, burner: Address, amount: nat)
    requires T.Backed(s.ledger)
    ensures BurnHook(s, burner, amount).Ok?
            <==> && amount <= BalanceOf(s.ledger, burner)
                 && s.ledger.totalSupply > 0
                 && amount * s.rewardBalance < U128_LIMIT
                 && s.log.txCount + 1 < U64_LIMIT
    ensures BurnHook(s, burner, amount).Abort? ==>
              BurnHook(s, burner, amount).error in {InsufficientFunds, Arithmetic}
    ensures BurnHook(s, burner, amount).Ok? ==>
              var out := BurnHook(s, burner, amount).value;
              var reward := amount * s.rewardBalance / s.ledger.totalSupply;
              && reward <= s.rewardBalance
              && out.state.rewardBalance == s.rewardBalance - reward && Paid(out.messages) == reward
              && T.Backed(out.state.ledger) && Gap(out.state.ledger) == Gap(s.ledger)
              && out.state.ledger.totalSupply == s.ledger.totalSupply - amount
              && out.state == s.(ledger := out.state.ledger, rewardBalance := out.state.rewardBalance, log := out.state.log)
  {
    T.BurnRemoves(s.ledger, burner, amount);
    hide Snip20.Burn, T.Circulating;
    var reward := RewardOf(amount, s.rewardBalance, s.ledger.totalSupply);
    if reward.Ok? && amount <= BalanceOf(s.ledger, burner) {
      RewardWithin(amount, s.rewardBalance, s.ledger.totalSupply);
      PaidOne(TransferReward(burner, reward.value));
    }
  }

  lemma CallKeepsBooks(s: State, call: Call)
    requires T.Backed(s.ledger)
    ensures var r := Handle(s, call);
      && r != Abort(TooRich) && r != Abort(AccountOverflow) && r != Abort(BurnAboveSupply)
      && (r.Ok? ==>
            && T.Backed(r.value.state.ledger) && Gap(r.value.state.ledger) == Gap(s.ledger)
            && r.value.state.rewardBalance + Paid(r.value.messages) == s.rewardBalance + NotifiedBy(call))
  {
    hide Snip20.Transfer, Snip20.Mint, Snip20.Burn, T.Circulating, BurnHook;
    match call.request
    case Transfer(to, amount) => T.TransferMoves(s.ledger, call.sender, to, amount);
    case TransferFrom(owner, to, amount) =>
      var spent := SpendAllowance(s.ledger, call.time, owner, call.sender, amount);
      if spent.Ok? {
        T.SameBalances(s.ledger, spent.value);
        T.TransferMoves(spent.value, owner, to, amount);
      }
    case IncreaseAllowance(spender, amount, expiration) =>
      T.SameBalances(s.ledger, Snip20.IncreaseAllowance(s.ledger, call.sender, spender, amount, expiration));
    case DecreaseAllowance(spender, amount, expiration) =>
      T.SameBalances(s.ledger, Snip20.DecreaseAllowance(s.ledger, call.sender, spender, amount, expiration));
    case Mint(to, amount) => T.MintAdds(s.ledger, to, amount);
    case Burn(amount) => NothingPaid(s, call.sender, amount);
    case BurnFrom(owner, amount) =>
      NothingPaid(s, owner, amount);
      var spent := SpendAllowance(s.ledger, call.time, owner, call.sender, amount);
      if spent.Ok? {
        T.SameBalances(s.ledger, spent.value);
      }
    case Callback(burner, amount) => BurnCommitsIff(s, burner, amount);
    case _ =>
  }

  lemma NothingPaid(s: State, owner: Address, amount: nat)
    ensures Paid(BurnMessages(s, owner, amount)) == 0
  {
    PaidOne(SelfCallback(owner, amount));
    assert BurnMessages(s, owner, amount)[1..] == [SelfCallback(owner, amount)];
  }

  /** In every reachable state the supply is backed as the initial balances left it, and each
      reward that was notified has been paid or is still in the balance. */
  lemma {:induction false} BooksAlwaysKept(
      admin: Address, ownAddr: Address, master: Address, entries: seq<InitialBalance>, calls: seq<Call>)
    requires Init(admin, ownAddr, master, entries).Ok? && Run(Init(admin, ownAddr, master, entries).value, calls).Ok?
    ensures var start := Init(admin, ownAddr, master, entries).value;
      var s := Run(start, calls).value;
      && T.Circulating(s.ledger) + T.Lost(entries) == s.ledger.totalSupply < U128_LIMIT
      && (T.Circulating(s.ledger) == s.ledger.totalSupply <==> T.OverwritesNothing(entries))
      && s.rewardBalance + TotalPaid(start, calls) == TotalNotified(calls)
  {
    BooksAreLedger(admin, entries);
    T.NothingLostIff(entries);
    if calls == [] {
      T.InitialSupply(entries);
    } else {
      var before := calls[..|calls| - 1];
      var start := Init(admin, ownAddr, master, entries).value;
      BooksAlwaysKept(admin, ownAddr, master, entries, before);
      CallKeepsBooks(Run(start, before).value, calls[|calls| - 1]);
    }
  }

  /** The same three errors as in the other token, in every reachable state. */
  lemma ErrorsNeverSeen(
      admin: Address, ownAddr: Address, master: Address, entries: seq<InitialBalance>, calls: seq<Call>, call: Call)
    requires Init(admin, ownAddr, master, entries).Ok? && Run(Init(admin, ownAddr, master, entries).value, calls).Ok?
    ensures Handle(Run(Init(admin, ownAddr, master, entries).value, calls).value, call)
            !in {Abort(TooRich), Abort(AccountOverflow), Abort(BurnAboveSupply)}
  {
    BooksAlwaysKept(admin, ownAddr, master, entries, calls);
    CallKeepsBooks(Run(Init(admin, ownAddr, master, entries).value, calls).value, call);
  }

  // --- What burning does to those who stay ---

  /** One burn, cross-multiplied: rewards per token do not fall, and rise by less than one
      reward unit over the supply. */
  lemma OneBurn(rewards: nat, supply: nat, amount: nat)
    requires 0 < supply && amount <= supply
    ensures var left := rewards - amount * rewards / supply;
      rewards * (supply - amount) <= left * supply < rewards * (supply - amount) + supply
  {
    var scaled := amount * rewards;
    DivideRemainder(scaled, supply);
    var reward := scaled / supply;
    assert (rewards - reward) * supply == rewards * supply - reward * supply;
    assert rewards * (supply - amount) == rewards * supply - amount * rewards;
  }

  datatype BurnOrder = BurnOrder(burner: Address, amount: nat)

  function BurnAll(s: State, burns: seq<BurnOrder>): Result<State> {
    if burns == [] then Ok(s)
    else
      var before :- BurnAll(s, burns[..|burns| - 1]);
      var out :- BurnHook(before, burns[|burns| - 1].burner, burns[|burns| - 1].amount);
      Ok(out.state)
  }

  function AmountOf(burns: seq<BurnOrder>): nat {
    if burns == [] then 0 else AmountOf(burns[..|burns| - 1]) + burns[|burns| - 1].amount
  }

  /** Chaining two inequalities between ratios through a positive middle one. */
  lemma ChainRatios(r0: nat, t0: nat, r1: nat, t1: nat, r2: nat, t2: nat)
    requires t1 > 0 && r0 * t1 <= r1 * t0 && r1 * t2 <= r2 * t1
    ensures r0 * t2 <= r2 * t0
  {
    assert r0 * t2 * t1 == r0 * t1 * t2;
    MultiplyMonotone(r0 * t1, r1 * t0, t2);
    assert r1 * t0 * t2 == r1 * t2 * t0;
    MultiplyMonotone(r1 * t2, r2 * t1, t0);
    assert r2 * t1 * t0 == r2 * t0 * t1;
    CancelFactor(r0 * t2, r2 * t0, t1);
  }

  lemma Scale(a: int, b: int, c: nat)
    requires a < b && c > 0
    ensures a * c < b * c
  {
  }

  lemma Swap(a: int, b: int, c: int)
    ensures a * b * c == a * c * b
  {
  }

  /** The same from above, with the error of one more rounding. */
  lemma ChainErrors(r0: nat, t0: nat, r1: nat, t1: nat, r2: nat, t2: nat, k: nat)
    requires t0 > 0 && t1 > 0 && t2 <= t1
    requires r1 * t0 <= r0 * t1 + k * t0
    requires r2 * t1 < r1 * t2 + t1
    ensures r2 * t0 < r0 * t2 + (k + 1) * t0
  {
    Scale(r2 * t1, r1 * t2 + t1, t0);
    Distribute(r1 * t2, t1, t0);
    Swap(r2, t1, t0);
    Swap(r1, t2, t0);
    assert r2 * t0 * t1 < r1 * t0 * t2 + t1 * t0;
    MultiplyMonotone(r1 * t0, r0 * t1 + k * t0, t2);
    Distribute(r0 * t1, k * t0, t2);
    Swap(r0, t1, t2);
    assert r1 * t0 * t2 <= r0 * t2 * t1 + k * t0 * t2;
    MultiplyMonotone(t2, t1, k * t0);
    assert k * t0 * t2 <= k * t0 * t1;
    Distribute(k, 1, t0);
    Distribute(k * t0, t0, t1);
    Distribute(r0 * t2, (k + 1) * t0, t1);
    assert r2 * t0 * t1 < (r0 * t2 + (k + 1) * t0) * t1;
    CancelFactorStrict(r2 * t0, r0 * t2 + (k + 1) * t0, t1);
  }

  /** Rewards per token after k burns, cross-multiplied: no lower than before, and higher by at
      most k rounded-off units. */
  ghost predicate Bracket(s: State, t: State, k: nat) {
    var before := s.rewardBalance * t.ledger.totalSupply;
    var after := t.rewardBalance * s.ledger.totalSupply;
    && before <= after <= before + k * s.ledger.totalSupply
    && (k > 0 ==> after < before + k * s.ledger.totalSupply)
  }

  lemma {:induction false} BracketGrows(s: State, m: State, t: State, k: nat)
    requires s.ledger.totalSupply > 0 && m.ledger.totalSupply > 0 && t.ledger.totalSupply <= m.ledger.totalSupply
    requires Bracket(s, m, k) && Bracket(m, t, 1)
    ensures Bracket(s, t, k + 1)
  {
    ChainRatios(s.rewardBalance, s.ledger.totalSupply, m.rewardBalance, m.ledger.totalSupply,
                t.rewardBalance, t.ledger.totalSupply);
    ChainErrors(s.rewardBalance, s.ledger.totalSupply, m.rewardBalance, m.ledger.totalSupply,
                t.rewardBalance, t.ledger.totalSupply, k);
  }

  lemma BurnBracket(s: State, burner: Address, amount: nat)
    requires T.Backed(s.ledger) && BurnHook(s, burner, amount).Ok?
    ensures var t := BurnHook(s, burner, amount).value.state;
      && T.Backed(t.ledger) && s.ledger.totalSupply > 0
      && amount <= s.ledger.totalSupply && t.ledger.totalSupply == s.ledger.totalSupply - amount
      && Bracket(s, t, 1)
  {
    BurnCommitsIff(s, burner, amount);
    T.HeldWithin(s.ledger, burner);
    OneBurn(s.rewardBalance, s.ledger.totalSupply, amount);
  }

  /** A burn never lowers the reward balance per remaining token. */
  lemma {:induction false} BurnNeverDilutes(s: State, burner: Address, amount: nat)
    requires T.Backed(s.ledger) && BurnHook(s, burner, amount).Ok?
    ensures var t := BurnHook(s, burner, amount).value.state;
      s.rewardBalance * t.ledger.totalSupply <= t.rewardBalance * s.ledger.totalSupply
  {
    BurnBracket(s, burner, amount);
  }

  lemma {:induction false} BurnsBracket(s: State, burns: seq<BurnOrder>)
    requires T.Backed(s.ledger) && BurnAll(s, burns).Ok?
    ensures var t := BurnAll(s, burns).value;
      && T.Backed(t.ledger)
      && t.ledger.totalSupply == s.ledger.totalSupply - AmountOf(burns)
      && (s.ledger.totalSupply > 0 ==> Bracket(s, t, |burns|))
  {
    hide BurnHook, T.Backed, Bracket;
    if burns == [] {
      SameBracket(s);
    } else {
      var before := burns[..|burns| - 1];
      var burn := burns[|burns| - 1];
      BurnsBracket(s, before);
      var m := BurnAll(s, before).value;
      BurnBracket(m, burn.burner, burn.amount);
      BracketGrows(s, m, BurnAll(s, burns).value, |before|);
    }
  }

  lemma SameBracket(s: State)
    ensures Bracket(s, s, 0)
  {
  }

  /** k burns in a row, by whomever, pay together at most what one burn of the whole amount
      would, and less by at most k - 1. */
  lemma {:induction false} SplittingGainsNothing(s: State, burns: seq<BurnOrder>)
    requires T.Backed(s.ledger) && burns != [] && BurnAll(s, burns).Ok?
    ensures s.ledger.totalSupply > 0
    ensures var paid := s.rewardBalance - BurnAll(s, burns).value.rewardBalance;
      var single := AmountOf(burns) * s.rewardBalance / s.ledger.totalSupply;
      single - (|burns| - 1) <= paid <= single
  {
    hide T.Backed, BurnAll, Bracket;
    FirstBurn(s, burns);
    BurnsBracket(s, burns);
    BracketedShares(s, BurnAll(s, burns).value, AmountOf(burns), |burns|);
  }

  /** Without a supply no burn commits. */
  lemma {:induction false} FirstBurn(s: State, burns: seq<BurnOrder>)
    requires T.Backed(s.ledger) && burns != [] && BurnAll(s, burns).Ok?
    ensures s.ledger.totalSupply > 0
  {
    if |burns| == 1 {
      assert burns[..0] == [];
    } else {
      FirstBurn(s, burns[..|burns| - 1]);
    }
  }

  lemma {:induction false} BracketedShares(s: State, t: State, amount: nat, k: nat)
    requires s.ledger.totalSupply > 0 && k > 0 && Bracket(s, t, k)
    requires t.ledger.totalSupply == s.ledger.totalSupply - amount
    ensures var single := amount * s.rewardBalance / s.ledger.totalSupply;
      single - (k - 1) <= s.rewardBalance - t.rewardBalance <= single
  {
    Bracketed(s.rewardBalance, s.ledger.totalSupply, amount, t.rewardBalance, k);
  }

  lemma {:induction false} Bracketed(rewards: nat, supply: nat, amount: nat, left: nat, k: nat)
    requires 0 < supply && amount <= supply
    requires rewards * (supply - amount) <= left * supply < rewards * (supply - amount) + k * supply
    ensures var single := amount * rewards / supply;
      single - (k - 1) <= rewards - left <= single
  {
    var scaled := amount * rewards;
    var single := scaled / supply;
    DivideRemainder(scaled, supply);
    assert rewards * (supply - amount) == rewards * supply - scaled;
    assert (rewards - left) * supply == rewards * supply - left * supply;
    assert (rewards - left) * supply <= scaled < (single + 1) * supply;
    CancelFactorStrict(rewards - left, single + 1, supply);
    Distribute(rewards - left, k, supply);
    assert single * supply <= scaled < (rewards - left + k) * supply;
    CancelFactorStrict(single, rewards - left + k, supply);
  }
}
