/** The bulk-distributor contract as a state machine over values: each bulk is released in equal
    amounts per block until its end, and finished bulks are pruned when they are next looked at. */
module BulkDistributor {
  import opened Chain
  import opened Messages

  datatype RewardBulk = RewardBulk(endBlock: nat, amountPerBlock: nat)

  datatype State = State(admin: Address, spyToReward: Address, lastAwardedBlock: nat, bulks: seq<RewardBulk>)

  datatype Request =
    | Update
    | NewBulk(from: Address, amount: nat, distributeOver: nat)

  datatype Call = Call(height: nat, request: Request)

  datatype Outcome = Outcome(state: State, messages: seq<Message>)

  function Init(admin: Address, spyToReward: Address): State {
    State(admin, spyToReward, 0, [])
  }

  /** The blocks from `from` up to `to` in which a bulk with the given end still releases. */
  function BlocksLeft(endBlock: nat, from: nat, to: nat): nat {
    var last := if endBlock < to then endBlock else to;
    if from < last then last - from else 0
  }

  function Released(bulks: seq<RewardBulk>, from: nat, to: nat): nat {
    if bulks == [] then 0
    else
      var bulk := bulks[|bulks| - 1];
      Released(bulks[..|bulks| - 1], from, to) + BlocksLeft(bulk.endBlock, from, to) * bulk.amountPerBlock
  }

  /** Asking for a block before the last award underflows while some bulk has not ended then. */
  function BulkRewards(bulks: seq<RewardBulk>, lastAwarded: nat, current: nat): Result<nat> {
    if current < lastAwarded && exists i | 0 <= i < |bulks| :: current < bulks[i].endBlock then Abort(Arithmetic)
    else if Released(bulks, lastAwarded, current) < U128_LIMIT then Ok(Released(bulks, lastAwarded, current))
    else Abort(Arithmetic)
  }

  function Unfinished(bulks: seq<RewardBulk>, lastAwarded: nat): seq<RewardBulk> {
    if bulks == [] then []
    else
      var bulk := bulks[|bulks| - 1];
      Unfinished(bulks[..|bulks| - 1], lastAwarded) + (if bulk.endBlock > lastAwarded then [bulk] else [])
  }

  function ApplyUpdate(s: State, height: nat): Result<Outcome> {
    if s.lastAwardedBlock < height then
      var bulks := Unfinished(s.bulks, s.lastAwardedBlock);
      var rewards :- BulkRewards(bulks, s.lastAwardedBlock, height);
      var transfer := if rewards > 0 then [TransferReward(s.spyToReward, rewards)] else [];
      Ok(Outcome(s.(bulks := bulks, lastAwardedBlock := height), transfer + [NotifyAllocation(s.spyToReward, rewards)]))
    else Ok(Outcome(s, [NotifyAllocation(s.spyToReward, 0)]))
  }

  /** The tokens have arrived with the call; what is due is settled before the bulk is added. */
  function AddBulk(s: State, height: nat, from: Address, amount: nat, distributeOver: nat): Result<Outcome> {
    if from != s.admin then Abort(Unauthorized)
    else
      var updated :- ApplyUpdate(s, height);
      var endBlock :- Add64(height, distributeOver);
      var amountPerBlock :- Div(amount, distributeOver);
      var bulks := updated.state.bulks + [RewardBulk(endBlock, amountPerBlock)];
      Ok(Outcome(updated.state.(bulks := bulks), updated.messages))
  }

  function Handle(s: State, call: Call): Result<Outcome> {
    match call.request
    case Update => ApplyUpdate(s, call.height)
    case NewBulk(from, amount, over) => AddBulk(s, call.height, from, amount, over)
  }

  function QueryPending(s: State, block: nat): Result<nat> {
    BulkRewards(s.bulks, s.lastAwardedBlock, block)
  }

  function Run(s: State, calls: seq<Call>): Result<State> {
    if calls == [] then Ok(s)
    else
      var before :- Run(s, calls[..|calls| - 1]);
      var outcome :- Handle(before, calls[|calls| - 1]);
      Ok(outcome.state)
  }
}
