/** The gov-token contract as a state machine over values. */
module GovToken {
  import opened Chain
  import H = History
  import Snip20

  datatype TokenInfo = TokenInfo(name: string, symbol: string, decimals: nat)

  datatype State = State(admin: Address, minters: seq<Address>, ledger: Snip20.Ledger, log: H.Log)

  datatype Request =
    | Transfer(recipient: Address, sent: nat)
    | TransferFrom(owner: Address, to: Address, moved: nat)
    | IncreaseAllowance(spender: Address, more: nat, expiration: Option<nat>)
    | DecreaseAllowance(shrunk: Address, less: nat, newExpiration: Option<nat>)
    | Mint(account: Address, minted: nat)
    | Burn(burned: nat)
    | BurnFrom(victim: Address, destroyed: nat)
    | SetMinters(minters: seq<Address>)

  datatype Call = Call(time: nat, sender: Address, request: Request)

  predicate IsValidName(name: string) {
    3 <= |name| <= 30
  }

  predicate IsValidSymbol(symbol: string) {
    3 <= |symbol| <= 6 && forall c | c in symbol :: 'A' <= c <= 'Z'
  }

  /** The balances come first, so that a sum that does not fit is noticed before a bad name. */
  function Init(admin: Address, info: TokenInfo, entries: seq<Snip20.InitialBalance>): Result<State> {
    var ledger :- Snip20.Initial(entries);
    if !IsValidName(info.name) || !IsValidSymbol(info.symbol) || info.decimals > 18 then Abort(Malformed)
    else Ok(State(admin, [admin], ledger, H.Log(0, map[], map[])))
  }

  function Handle(s: State, call: Call): Result<State> {
    match call.request
    case Transfer(to, amount) =>
      var ledger :- Snip20.Transfer(s.ledger, call.sender, to, amount);
      var log :- H.RecordTransfer(s.log, call.sender, call.sender, to, amount);
      Ok(s.(ledger := ledger, log := log))
    case TransferFrom(owner, to, amount) =>
      var ledger :- Snip20.TransferFrom(s.ledger, call.time, call.sender, owner, to, amount);
      var log :- H.RecordTransfer(s.log, owner, call.sender, to, amount);
      Ok(s.(ledger := ledger, log := log))
    case IncreaseAllowance(spender, amount, expiration) =>
      Ok(s.(ledger := Snip20.IncreaseAllowance(s.ledger, call.sender, spender, amount, expiration)))
    case DecreaseAllowance(spender, amount, expiration) =>
      Ok(s.(ledger := Snip20.DecreaseAllowance(s.ledger, call.sender, spender, amount, expiration)))
    case Mint(to, amount) =>
      if call.sender !in s.minters then Abort(Unauthorized)
      else
        var ledger :- Snip20.Mint(s.ledger, to, amount);
        Ok(s.(ledger := ledger))
    case Burn(amount) =>
      var ledger :- Snip20.Burn(s.ledger, call.sender, amount);
      Ok(s.(ledger := ledger))
    case BurnFrom(owner, amount) =>
      var spent :- Snip20.SpendAllowance(s.ledger, call.time, owner, call.sender, amount);
      var ledger :- Snip20.Burn(spent, owner, amount);
      Ok(s.(ledger := ledger))
    case SetMinters(minters) =>
      if call.sender == s.admin then Ok(s.(minters := minters)) else Abort(Unauthorized)
  }

  function Run(s: State, calls: seq<Call>): Result<State> {
    if calls == [] then Ok(s)
    else
      var before :- Run(s, calls[..|calls| - 1]);
      Handle(before, calls[|calls| - 1])
  }
}
