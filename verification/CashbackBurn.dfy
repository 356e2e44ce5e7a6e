/** A burn as one transaction: the cashback token asks its master to report, the master's tokens and
    notification arrive, and only then the callback burns and pays. */
module CashbackBurn {
  import opened Chain
  import C = Cashback
  import Books = EmissionBound
  import M = Messages
  import R = CashbackRewards
  import Snip20
  import T = TokenSupply
  import W = WeightMaster
  import WH = WeightHistory

  /** `sent` are the messages that leave the two contracts. */
  datatype World = World(
    height: nat, time: nat, cash: C.State, masterAddr: Address, master: W.State, sent: seq<C.Message>)

  /** What the master sends: the minted tokens are the reward token's business, the notification is
      the token's own, unless it is another spy's. */
  function DeliverFromMaster(w: World, m: M.Message): Result<World> {
    match m
    case MintReward(_, _) => Ok(w)
    case NotifyAllocation(to, amount) =>
      if to == w.cash.ownAddr then
        var out :- C.Handle(w.cash, C.Call(w.time, w.masterAddr, C.Notify(amount)));
        Ok(w.(cash := out.state))
      else Ok(w)
    case _ => Abort(Malformed)
  }

  function DeliverAllFromMaster(w: World, ms: seq<M.Message>): Result<World> {
    if ms == [] then Ok(w)
    else
      var before :- DeliverAllFromMaster(w, ms[..|ms| - 1]);
      DeliverFromMaster(before, ms[|ms| - 1])
  }

  function DeliverFromToken(w: World, m: C.Message): Result<World> {
    match m
    case UpdateAllocation(source, spy) =>
      if source != w.masterAddr then Abort(NotFound)
      else
        var out :- W.Handle(w.master, W.Call(w.height, w.cash.ownAddr, W.Update(spy)));
        DeliverAllFromMaster(w.(master := out.state), out.messages)
    case SelfCallback(owner, amount) =>
      var out :- C.Handle(w.cash, C.Call(w.time, w.cash.ownAddr, C.Callback(owner, amount)));
      Ok(w.(cash := out.state, sent := w.sent + out.messages))
    case TransferReward(_, _) => Ok(w.(sent := w.sent + [m]))
  }

  function DeliverAllFromToken(w: World, ms: seq<C.Message>): Result<World> {
    if ms == [] then Ok(w)
    else
      var before :- DeliverAllFromToken(w, ms[..|ms| - 1]);
      DeliverFromToken(before, ms[|ms| - 1])
  }

  /** One call and everything that follows from it. */
  function Execute(w: World, call: C.Call): Result<World> {
    var out :- C.Handle(w.cash, call);
    DeliverAllFromToken(w.(cash := out.state), out.messages)
  }

  // --- The master's report ---

  lemma UpdateAnswers(m: W.State, height: nat, spy: Address)
    requires Books.Valid(m, height)
    ensures var r := W.ApplyUpdate(m, height, spy);
      && (r.Ok? <==> WH.FitsIn(m, height, spy))
      && (r.Ok? ==>
            || r.value.messages == [M.MintReward(spy, WH.Due(m, height, spy)),
                                    M.NotifyAllocation(spy, WH.Due(m, height, spy))]
            || (WH.Due(m, height, spy) == 0 && r.value.messages == [M.NotifyAllocation(spy, 0)]))
  {
    Books.TotalIsPositive(m, height);
    WH.UpdateCommitsIff(m, height, spy);
    if W.Stale(W.SpyOf(m.spies, spy, height), height) {
      if WH.FitsIn(m, height, spy) {
        WH.DueIsRewards(m, height, spy);
      }
    } else {
      WH.NotDue(m, height, spy);
    }
  }

  lemma OneFromMaster(w: World, m: M.Message)
    ensures DeliverAllFromMaster(w, [m]) == DeliverFromMaster(w, m)
  {
    assert [m][..0] == [];
  }

  lemma TwoFromMaster(w: World, amount: nat, notified: nat)
    ensures DeliverAllFromMaster(w, [M.MintReward(w.cash.ownAddr, amount), M.NotifyAllocation(w.cash.ownAddr, notified)])
            == DeliverFromMaster(w, M.NotifyAllocation(w.cash.ownAddr, notified))
  {
    var first := M.MintReward(w.cash.ownAddr, amount);
    var both := [first, M.NotifyAllocation(w.cash.ownAddr, notified)];
    assert both[..1] == [first];
    OneFromMaster(w, first);
  }

  /** After the request the reward balance has grown by what was due, and nothing else has changed
      in the token. */
  lemma ReportArrives(w: World)
    requires Books.Valid(w.master, w.height) && w.cash.master == w.masterAddr
    ensures var r := DeliverFromToken(w, C.UpdateAllocation(w.masterAddr, w.cash.ownAddr));
      var due := WH.Due(w.master, w.height, w.cash.ownAddr);
      && (r.Ok? <==> WH.FitsIn(w.master, w.height, w.cash.ownAddr) && w.cash.rewardBalance + due < U128_LIMIT)
      && (r.Ok? ==> r.value == w.(cash := w.cash.(rewardBalance := w.cash.rewardBalance + due), master := r.value.master))
  {
    hide W.ApplyUpdate, WH.Due, WH.FitsIn, Books.Valid;
    var own := w.cash.ownAddr;
    UpdateAnswers(w.master, w.height, own);
    if WH.FitsIn(w.master, w.height, own) {
      var v := w.(master := W.ApplyUpdate(w.master, w.height, own).value.state);
      var due := WH.Due(w.master, w.height, own);
      TwoFromMaster(v, due, due);
      OneFromMaster(v, M.NotifyAllocation(own, due));
    }
  }

  // --- The whole transaction ---

  /** Whose tokens a request burns. */
  function OwnerOf(sender: Address, request: C.Request): Address {
    match request
    case BurnFrom(owner, _) => owner
    case _ => sender
  }

  function AmountOf(request: C.Request): nat {
    match request
    case Burn(amount) => amount
    case BurnFrom(_, amount) => amount
    case _ => 0
  }

  /** A burn of one's own tokens needs no leave; a burn of another's needs her allowance. */
  predicate Allowed(l: Snip20.Ledger, time: nat, sender: Address, request: C.Request) {
    match request
    case BurnFrom(owner, amount) =>
      var allowance := Snip20.AllowanceOf(l, owner, sender);
      amount <= allowance.amount && (allowance.expiration.Some? ==> time <= allowance.expiration.value)
    case _ => true
  }

  /** What the allowances are once a request has used its own. */
  ghost predicate AllowancesUsed(l: Snip20.Ledger, t: Snip20.Ledger, sender: Address, request: C.Request) {
    forall o, s ::
      Snip20.AllowanceOf(t, o, s)
      == var before := Snip20.AllowanceOf(l, o, s);
         if request.BurnFrom? && o == request.victim && s == sender && request.destroyed <= before.amount
         then before.(amount := before.amount - request.destroyed) else before
  }

  lemma RequestAsks(w: World, sender: Address, request: C.Request)
    requires request.Burn? || request.BurnFrom?
    ensures var r := C.Handle(w.cash, C.Call(w.time, sender, request));
      && (r.Ok? <==> Allowed(w.cash.ledger, w.time, sender, request))
      && (r.Ok? ==>
            && r.value.state == w.cash.(ledger := w.cash.ledger.(allowances := r.value.state.ledger.allowances))
            && AllowancesUsed(w.cash.ledger, r.value.state.ledger, sender, request)
            && r.value.messages == [C.UpdateAllocation(w.cash.master, w.cash.ownAddr),
                                    C.SelfCallback(OwnerOf(sender, request), AmountOf(request))])
  {
  }

  lemma TwoFromToken(w: World, first: C.Message, second: C.Message)
    ensures DeliverAllFromToken(w, [first, second])
            == match DeliverFromToken(w, first)
               case Abort(error) => Abort(error)
               case Ok(v) => DeliverFromToken(v, second)
  {
    hide DeliverFromToken;
    var both := [first, second];
    assert both[..1] == [first] && [first][..0] == [];
    assert DeliverAllFromToken(w, [first]) == DeliverFromToken(w, first);
  }

  /** What the books of the token are after a burn of `amount` by `owner`. */
  ghost predicate Burned(l: Snip20.Ledger, t: Snip20.Ledger, owner: Address, amount: nat) {
    && t.allowances == l.allowances
    && t.totalSupply == l.totalSupply - amount
    && forall u :: Snip20.BalanceOf(t, u) == Snip20.BalanceOf(l, u) - (if u == owner then amount else 0)
  }

  lemma CallbackBurns(w: World, owner: Address, amount: nat)
    requires T.Backed(w.cash.ledger)
    ensures var r := DeliverFromToken(w, C.SelfCallback(owner, amount));
      && (r.Ok? <==> && amount <= Snip20.BalanceOf(w.cash.ledger, owner)
                     && w.cash.ledger.totalSupply > 0
                     && amount * w.cash.rewardBalance < U128_LIMIT
                     && w.cash.log.txCount + 1 < U64_LIMIT)
      && (r.Ok? ==>
            var reward := amount * w.cash.rewardBalance / w.cash.ledger.totalSupply;
            && 0 <= reward <= w.cash.rewardBalance
            && r.value == w.(cash := r.value.cash, sent := r.value.sent)
            && Burned(w.cash.ledger, r.value.cash.ledger, owner, amount)
            && r.value.cash.rewardBalance == w.cash.rewardBalance - reward
            && r.value.sent == w.sent + (if reward > 0 then [C.TransferReward(owner, reward)] else []))
  {
    R.BurnCommitsIff(w.cash, owner, amount);
    T.BurnRemoves(w.cash.ledger, owner, amount);
    hide T.Backed, Snip20.Burn;
  }

  /** A burn or burn-from by `sender`, whole: it commits exactly if it is allowed, the owner holds
      the tokens, and the arithmetic is defined. Then the owner's tokens are gone, from her balance
      and from the supply, and nobody else's; the allowance is used up by as much; and the owner is
      sent her share of the rewards as they stand after the master's report. */
  lemma BurnTransaction(w: World, sender: Address, request: C.Request)
    requires request.Burn? || request.BurnFrom?
    requires T.Backed(w.cash.ledger) && Books.Valid(w.master, w.height) && w.cash.master == w.masterAddr
    ensures var r := Execute(w, C.Call(w.time, sender, request));
      var owner, amount := OwnerOf(sender, request), AmountOf(request);
      var supply := w.cash.ledger.totalSupply;
      var collected := w.cash.rewardBalance + WH.Due(w.master, w.height, w.cash.ownAddr);
      && (r.Ok? <==> && Allowed(w.cash.ledger, w.time, sender, request)
                     && WH.FitsIn(w.master, w.height, w.cash.ownAddr) && collected < U128_LIMIT
                     && amount <= Snip20.BalanceOf(w.cash.ledger, owner) && supply > 0
                     && amount * collected < U128_LIMIT && w.cash.log.txCount + 1 < U64_LIMIT)
      && (r.Ok? ==>
            var reward := amount * collected / supply;
            var v := r.value;
            && 0 <= reward <= collected
            && v.cash.ledger.totalSupply == supply - amount
            && (forall u :: Snip20.BalanceOf(v.cash.ledger, u)
                            == Snip20.BalanceOf(w.cash.ledger, u) - (if u == owner then amount else 0))
            && AllowancesUsed(w.cash.ledger, v.cash.ledger, sender, request)
            && v.cash.rewardBalance == collected - reward
            && v.sent == w.sent + (if reward > 0 then [C.TransferReward(owner, reward)] else []))
  {
    hide C.Handle, DeliverFromToken, WH.Due, WH.FitsIn, Books.Valid, T.Circulating, AllowancesUsed, Allowed;
    var owner, amount := OwnerOf(sender, request), AmountOf(request);
    RequestAsks(w, sender, request);
    var asked := C.Handle(w.cash, C.Call(w.time, sender, request));
    if asked.Ok? {
      var first := w.(cash := asked.value.state);
      TwoFromToken(first, C.UpdateAllocation(w.masterAddr, w.cash.ownAddr), C.SelfCallback(owner, amount));
      ReportArrives(first);
      T.SameBalances(w.cash.ledger, first.cash.ledger);
      var second := DeliverFromToken(first, C.UpdateAllocation(w.masterAddr, w.cash.ownAddr));
      if second.Ok? {
        CallbackBurns(second.value, owner, amount);
        SameAllowances(w.cash.ledger, first.cash.ledger, sender, request);
        if DeliverFromToken(second.value, C.SelfCallback(owner, amount)).Ok? {
          UsedThroughout(w.cash.ledger, first.cash.ledger,
                         DeliverFromToken(second.value, C.SelfCallback(owner, amount)).value.cash.ledger, sender, request);
        }
      }
    }
  }

  lemma SameAllowances(l: Snip20.Ledger, t: Snip20.Ledger, sender: Address, request: C.Request)
    requires t.balances == l.balances
    ensures forall u :: Snip20.BalanceOf(t, u) == Snip20.BalanceOf(l, u)
  {
  }

  lemma UsedThroughout(l: Snip20.Ledger, mid: Snip20.Ledger, t: Snip20.Ledger, sender: Address, request: C.Request)
    requires AllowancesUsed(l, mid, sender, request) && t.allowances == mid.allowances
    ensures AllowancesUsed(l, t, sender, request)
  {
    forall o, s
      ensures Snip20.AllowanceOf(t, o, s) == Snip20.AllowanceOf(mid, o, s)
    {
    }
  }
}
