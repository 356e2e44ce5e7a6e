/** The cashback token as a state machine over values. A burn first lets the master report the
    rewards it granted, and is carried out by a callback. */
module Cashback {
  import opened Chain
  import Snip20
  import H = History

  datatype State = State(
    admin: Address,
    ownAddr: Address,
    master: Address,
    minters: seq<Address>,
    ledger: Snip20.Ledger,
    rewardBalance: nat,
    log: H.Log)

  datatype Request =
    | Transfer(recipient: Address, sent: nat)
    | TransferFrom(owner: Address, to: Address, moved: nat)
    | IncreaseAllowance(spender: Address, more: nat, expiration: Option<nat>)
    | DecreaseAllowance(shrunk: Address, less: nat, newExpiration: Option<nat>)
    | Mint(account: Address, minted: nat)
    | Burn(burned: nat)
    | BurnFrom(victim: Address, destroyed: nat)
    | Notify(granted: nat)
    | Callback(burner: Address, burnAmount: nat)
    | SetMinters(newMinters: seq<Address>)

  datatype Call = Call(time: nat, sender: Address, request: Request)

  datatype Message =
    | UpdateAllocation(source: Address, spy: Address)
    | SelfCallback(owner: Address, amount: nat)
    | TransferReward(rewarded: Address, reward: nat)

  datatype Outcome = Outcome(state: State, messages: seq<Message>)

  datatype Books = Books(ledger: Snip20.Ledger, log: H.Log)

  /** Every initial balance is recorded as a mint by the admin. */
  function InitialBooks(admin: Address, entries: seq<Snip20.InitialBalance>): Result<Books> {
    if entries == [] then Ok(Books(Snip20.Ledger(map[], 0, map[]), H.Log(0, map[], map[])))
    else
      var before :- InitialBooks(admin, entries[..|entries| - 1]);
      var entry := entries[|entries| - 1];
      var ledger :- Snip20.AddInitial(before.ledger, entry);
      var log :- H.StoreMint(before.log, admin, entry.address, entry.amount);
      Ok(Books(ledger, log))
  }

  function Init(admin: Address, ownAddr: Address, master: Address, entries: seq<Snip20.InitialBalance>): Result<State> {
    var books :- InitialBooks(admin, entries);
    Ok(State(admin, ownAddr, master, [admin], books.ledger, 0, books.log))
  }

  /** A burner's share of the rewards collected so far. */
  function RewardOf(burnAmount: nat, rewardBalance: nat, totalSupply: nat): Result<nat> {
    var scaled :- Mul128(burnAmount, rewardBalance);
    Div(scaled, totalSupply)
  }

  function PayReward(s: State, burner: Address, burnAmount: nat): Result<Outcome> {
    var reward :- RewardOf(burnAmount, s.rewardBalance, s.ledger.totalSupply);
    if reward > 0 then
      var rest :- Sub(s.rewardBalance, reward);
      Ok(Outcome(s.(rewardBalance := rest), [TransferReward(burner, reward)]))
    else Ok(Outcome(s, []))
  }

  function BurnHook(s: State, burner: Address, amount: nat): Result<Outcome> {
    if amount > Snip20.BalanceOf(s.ledger, burner) then Abort(InsufficientFunds)
    else
      var paid :- PayReward(s, burner, amount);
      var ledger :- Snip20.Burn(s.ledger, burner, amount);
      var log :- H.StoreBurn(s.log, burner, burner, amount);
      Ok(Outcome(paid.state.(ledger := ledger, log := log), paid.messages))
  }

  function BurnMessages(s: State, owner: Address, amount: nat): seq<Message> {
    [UpdateAllocation(s.master, s.ownAddr), SelfCallback(owner, amount)]
  }

  function Handle(s: State, call: Call): Result<Outcome> {
    match call.request
    case Transfer(to, amount) =>
      var ledger :- Snip20.Transfer(s.ledger, call.sender, to, amount);
      var log :- H.StoreTransfer(s.log, call.sender, call.sender, to, amount);
      Ok(Outcome(s.(ledger := ledger, log := log), []))
    case TransferFrom(owner, to, amount) =>
      var ledger :- Snip20.TransferFrom(s.ledger, call.time, call.sender, owner, to, amount);
      var log :- H.StoreTransfer(s.log, owner, call.sender, to, amount);
      Ok(Outcome(s.(ledger := ledger, log := log), []))
    case IncreaseAllowance(spender, amount, expiration) =>
      Ok(Outcome(s.(ledger := Snip20.IncreaseAllowance(s.ledger, call.sender, spender, amount, expiration)), []))
    case DecreaseAllowance(spender, amount, expiration) =>
      Ok(Outcome(s.(ledger := Snip20.DecreaseAllowance(s.ledger, call.sender, spender, amount, expiration)), []))
    case Mint(to, amount) =>
      if call.sender !in s.minters then Abort(Unauthorized)
      else
        var ledger :- Snip20.Mint(s.ledger, to, amount);
        var log :- H.StoreMint(s.log, call.sender, to, amount);
        Ok(Outcome(s.(ledger := ledger, log := log), []))
    case Burn(amount) => Ok(Outcome(s, BurnMessages(s, call.sender, amount)))
    case BurnFrom(owner, amount) =>
      var ledger :- Snip20.SpendAllowance(s.ledger, call.time, owner, call.sender, amount);
      Ok(Outcome(s.(ledger := ledger), BurnMessages(s, owner, amount)))
    case Notify(amount) =>
      if call.sender != s.master && call.sender != s.admin then Abort(Unauthorized)
      else
        var balance :- Add128(s.rewardBalance, amount);
        Ok(Outcome(s.(rewardBalance := balance), []))
    case Callback(burner, amount) =>
      if call.sender == s.ownAddr then BurnHook(s, burner, amount) else Abort(Unauthorized)
    case SetMinters(minters) =>
      if call.sender == s.admin then Ok(Outcome(s.(minters := minters), [])) else Abort(Unauthorized)
  }

  function Run(s: State, calls: seq<Call>): Result<State> {
    if calls == [] then Ok(s)
    else
      var before :- Run(s, calls[..|calls| - 1]);
      var outcome :- Handle(before, calls[|calls| - 1]);
      Ok(outcome.state)
  }
}
