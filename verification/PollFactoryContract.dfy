/** The poll-factory contract in its own form. */
module PollFactoryContract {
  import opened Chain
  import opened Messages
  import P = SecretPoll
  import F = PollFactory

  class Contract {
    var admin: Address
    var stakingPool: Address
    var minStaked: nat
    var committee: P.RevealCommittee
    var defaultConfig: P.PollConfig
    var idCounter: nat
    var challenge: Option<string>
    var activePolls: seq<F.ActivePoll>

    ghost function Model(): F.State
      reads this
    {
      F.State(admin, stakingPool, minStaked, committee, defaultConfig, idCounter, challenge, activePolls)
    }

    constructor (
      admin: Address, stakingPool: Address, minStaked: nat, committee: P.RevealCommittee, defaultConfig: P.PollConfig)
      ensures Model() == F.State(admin, stakingPool, minStaked, committee, defaultConfig, 0, None, [])
    {
      this.admin := admin;
      this.stakingPool := stakingPool;
      this.minStaked := minStaked;
      this.committee := committee;
      this.defaultConfig := defaultConfig;
      this.idCounter := 0;
      this.challenge := None;
      this.activePolls := [];
    }

    /** Answers the poll to instantiate and what its init hook will call back with. */
    method NewPoll(
        time: nat, metadata: P.Metadata, config: Option<P.PollConfig>, choices: seq<string>, stake: nat, nonce: string)
      returns (r: Result<(P.InitMsg, string, nat)>)
      modifies this`idCounter, this`challenge
      ensures match F.NewPoll(old(Model()), time, metadata, config, choices, stake, nonce)
              case Ok(made) => r == Ok((made.msg, made.challenge, made.endTime)) && Model() == made.state
              case Abort(error) => r == Abort(error)
    {
      var pollConfig := if config.Some? then config.value else defaultConfig;
      if stake < minStaked {
        return Abort(InsufficientFunds);
      }
      challenge := Some(nonce);
      var endTime :- Add64(time, pollConfig.duration);
      var initMsg := P.InitMsg(metadata, pollConfig, committee, choices, stakingPool);
      idCounter :- Add128(idCounter, 1);
      return Ok((initMsg, nonce, endTime));
    }

    method RegisterForUpdates(sender: Address, response: string, endTime: nat) returns (r: Result<()>)
      modifies this`challenge, this`activePolls
      ensures match F.Register(old(Model()), sender, response, endTime)
              case Ok(state) => r == Ok(()) && Model() == state
              case Abort(error) => r == Abort(error)
    {
      if challenge != Some(response) {
        return Abort(Unauthorized);
      } else {
        challenge := None;
      }
      activePolls := activePolls + [F.ActivePoll(sender, endTime)];
      return Ok(());
    }

    method GetActivePolls(currentTime: nat) returns (active: seq<F.ActivePoll>)
      ensures active == F.Active(activePolls, currentTime)
    {
      active := [];
      for i := 0 to |activePolls|
        invariant active == F.Active(activePolls[..i], currentTime)
      {
        assert activePolls[..i + 1][..i] == activePolls[..i];
        if activePolls[i].endTime >= currentTime {
          active := active + [activePolls[i]];
        }
      }
      assert activePolls[..|activePolls|] == activePolls;
    }

    method RemoveInactivePolls(time: nat) returns (active: seq<F.ActivePoll>)
      modifies this`activePolls
      ensures active == F.Active(old(activePolls), time) == activePolls
    {
      active := GetActivePolls(time);
      activePolls := active;
    }

    method UpdateVotingPower(time: nat, sender: Address, voter: Address, newPower: nat)
      returns (r: Result<seq<Message>>)
      modifies this`activePolls
      ensures match F.UpdatePower(old(Model()), time, sender, voter, newPower)
              case Ok(out) => r == Ok(out.messages) && Model() == out.state
              case Abort(error) => r == Abort(error)
    {
      if sender != stakingPool {
        return Abort(Unauthorized);
      }
      var messages: seq<Message> := [];
      var polls := RemoveInactivePolls(time);
      for i := 0 to |polls|
        invariant messages == F.Forwards(polls[..i], voter, newPower)
      {
        messages := messages + [Message.UpdateVotingPower(polls[i].address, voter, newPower)];
      }
      assert polls[..|polls|] == polls;
      return Ok(messages);
    }
  }
}
