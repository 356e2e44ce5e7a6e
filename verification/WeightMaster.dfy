/** The weight-master contract as a state machine over values: it mints the scheduled emission
    to the reward contracts ("spies") by weight, each from its own checkpoint. */
module WeightMaster {
  import opened Chain
  import opened Messages
  import opened Schedule

  datatype SpySettings = SpySettings(weight: nat, lastUpdateBlock: nat)

  datatype WeightInfo = WeightInfo(address: Address, weight: nat)

  datatype State = State(
    admin: Address,
    totalWeight: nat,
    schedule: seq<ScheduleUnit>,
    spies: map<Address, SpySettings>)

  datatype Request =
    | Update(spy: Address)
    | SetWeights(weights: seq<WeightInfo>)
    | SetSchedule(newSchedule: seq<ScheduleUnit>)

  datatype Call = Call(height: nat, sender: Address, request: Request)

  datatype Outcome = Outcome(state: State, messages: seq<Message>)

  function Init(admin: Address, schedule: seq<ScheduleUnit>): State {
    State(admin, 1, SortSchedule(schedule), map[])
  }

  /** An unknown spy reads as weightless and up to date. */
  function SpyOf(spies: map<Address, SpySettings>, spy: Address, height: nat): SpySettings {
    if spy in spies then spies[spy] else SpySettings(0, height)
  }

  function SpyRewards(schedule: seq<ScheduleUnit>, settings: SpySettings, height: nat, totalWeight: nat): Result<nat>
  {
    ShareOfEmission(schedule, settings.lastUpdateBlock, height, settings.weight, totalWeight)
  }

  predicate Stale(settings: SpySettings, height: nat) {
    settings.lastUpdateBlock < height && settings.weight > 0
  }

  /** How far a `set_weights` loop has come. */
  datatype Progress = Progress(
    spies: map<Address, SpySettings>, messages: seq<Message>, newWeights: nat, oldWeights: nat)

  function SetOne(s: State, height: nat, p: Progress, info: WeightInfo): Result<Progress>
  {
    var settings := SpyOf(p.spies, info.address, height);
    var paid :- if Stale(settings, height) then
        (var rewards :- SpyRewards(s.schedule, settings, height, s.totalWeight);
         Ok([MintReward(info.address, rewards), NotifyAllocation(info.address, rewards)]))
      else Ok([]);
    var newWeights :- Add64(p.newWeights, info.weight);
    var oldWeights :- Add64(p.oldWeights, settings.weight);
    Ok(Progress(p.spies[info.address := SpySettings(info.weight, height)], p.messages + paid, newWeights, oldWeights))
  }

  function SetAll(s: State, height: nat, weights: seq<WeightInfo>): Result<Progress>
  {
    if weights == [] then Ok(Progress(s.spies, [], 0, 0))
    else
      var before :- SetAll(s, height, weights[..|weights| - 1]);
      SetOne(s, height, before, weights[|weights| - 1])
  }

  function ApplySetWeights(s: State, height: nat, weights: seq<WeightInfo>): Result<Outcome>
  {
    var p :- SetAll(s, height, weights);
    var rest :- Sub(s.totalWeight, p.oldWeights);
    var total :- Add64(rest, p.newWeights);
    Ok(Outcome(s.(totalWeight := total, spies := p.spies), p.messages))
  }

  /** The notification goes out even when there is nothing to mint. */
  function ApplyUpdate(s: State, height: nat, spy: Address): Result<Outcome>
  {
    var settings := SpyOf(s.spies, spy, height);
    if Stale(settings, height) then
      var rewards :- SpyRewards(s.schedule, settings, height, s.totalWeight);
      Ok(Outcome(
           s.(spies := s.spies[spy := settings.(lastUpdateBlock := height)]),
           [MintReward(spy, rewards), NotifyAllocation(spy, rewards)]))
    else Ok(Outcome(s, [NotifyAllocation(spy, 0)]))
  }

  function Handle(s: State, call: Call): Result<Outcome>
  {
    match call.request
    case Update(spy) => ApplyUpdate(s, call.height, spy)
    case SetWeights(weights) =>
      if call.sender != s.admin then Abort(Unauthorized) else ApplySetWeights(s, call.height, weights)
    case SetSchedule(schedule) =>
      if call.sender != s.admin then Abort(Unauthorized)
      else Ok(Outcome(s.(schedule := SortSchedule(schedule)), []))
  }

  function QueryPending(s: State, spy: Address, block: nat): Result<nat>
  {
    SpyRewards(s.schedule, SpyOf(s.spies, spy, block), block, s.totalWeight)
  }

  /** Tokens that a list of messages mints. */
  function Minted(messages: seq<Message>): nat {
    if messages == [] then 0
    else Minted(messages[..|messages| - 1])
         + (if messages[|messages| - 1].MintReward? then messages[|messages| - 1].mintAmount else 0)
  }

  /** The state after a list of committed calls. */
  function Run(s: State, calls: seq<Call>): Result<State> {
    if calls == [] then Ok(s)
    else
      var before :- Run(s, calls[..|calls| - 1]);
      var outcome :- Handle(before, calls[|calls| - 1]);
      Ok(outcome.state)
  }
}
