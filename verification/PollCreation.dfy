/** What a created poll is, and who may create one: in any run of pool, factory and polls. */
module PollCreation {
  import opened Chain
  import F = PollFactory
  import opened Governance
  import opened Messages
  import P = SecretPoll
  import S = Staking

  /** The polls that a list of events created. */
  function CreatedBy(events: seq<Event>): nat {
    if events == [] then 0
    else CreatedBy(events[..|events| - 1]) + (if events[|events| - 1].action.CreatePoll? then 1 else 0)
  }

  /** What no event changes about the factory. */
  ghost predicate SameFactory(f: F.State, g: F.State) {
    g == f.(idCounter := g.idCounter, challenge := g.challenge, activePolls := g.activePolls)
  }

  lemma TellStays(w: World, sender: Address, voter: Address, power: nat)
    requires TellFactory(w, sender, voter, power).Ok?
    ensures var v := TellFactory(w, sender, voter, power).value;
      SameFactory(w.factory, v.factory) && v.factory.idCounter == w.factory.idCounter
      && v.factoryAddress == w.factoryAddress && v.pool == w.pool
  {
    hide F.Active, F.Forwards, Forward;
  }

  lemma {:induction false} DeliverStays(w: World, ms: seq<Message>)
    requires Deliver(w, ms).Ok?
    ensures var v := Deliver(w, ms).value;
      SameFactory(w.factory, v.factory) && v.factory.idCounter == w.factory.idCounter
      && v.factoryAddress == w.factoryAddress && v.pool == w.pool
  {
    hide TellFactory;
    if ms != [] {
      var m := ms[|ms| - 1];
      DeliverStays(w, ms[..|ms| - 1]);
      var mid := Deliver(w, ms[..|ms| - 1]).value;
      if m.UpdateVotingPower? && m.contract == w.factoryAddress {
        TellStays(mid, w.pool.config.ownAddr, m.voter, m.power);
      }
    }
  }

  lemma ExecuteStays(w: World, action: Action)
    requires Execute(w, action).Ok?
    ensures var v := Execute(w, action).value;
      && SameFactory(w.factory, v.factory) && v.factoryAddress == w.factoryAddress
      && v.factory.idCounter == w.factory.idCounter + (if action.CreatePoll? then 1 else 0)
  {
    hide S.Handle, P.Handle, P.Init, TellFactory, Deliver;
    match action
    case ToPool(call) =>
      var out := S.Handle(w.pool, call).value;
      DeliverStays(w.(pool := out.state), out.messages);
    case ReportToFactory(sender, reported, power) => TellStays(w, sender, reported, power);
    case _ =>
  }

  /** Over any run the factory keeps its configuration, and counts the polls it created. */
  lemma {:induction false} FactoryStays(origin: World, events: seq<Event>)
    requires Run(origin, events).Ok?
    ensures var w := Run(origin, events).value;
      && SameFactory(origin.factory, w.factory) && w.factoryAddress == origin.factoryAddress
      && w.factory.idCounter == origin.factory.idCounter + CreatedBy(events)
  {
    hide Execute;
    if events != [] {
      var before := events[..|events| - 1];
      var e := events[|events| - 1];
      FactoryStays(origin, before);
      ExecuteStays(Run(origin, before).value.(time := e.time), e.action);
    }
  }

  function ConfigOf(f: F.State, asked: Option<P.PollConfig>): P.PollConfig {
    match asked
    case Some(config) => config
    case None => f.defaultConfig
  }

  /** A poll as it starts: with the asked configuration or else the factory's, ending that long
      from now, with nobody's vote and nobody's reveal, owned by the factory. */
  function NewbornPoll(
      origin: World, time: nat, asked: Option<P.PollConfig>, choices: seq<string>): P.State
  {
    var config := ConfigOf(origin.factory, asked);
    P.State(origin.factoryAddress, origin.factory.stakingPool,
            P.StoredConfig(time + config.duration, config.quorum, config.minThreshold, choices, false, false, ""),
            seq(|choices|, _ => 0), 0, map[], P.Reveal(origin.factory.committee, 0, []))
  }

  /** In any reachable world, at any later time: a poll is created exactly if its author has the
      factory's minimum stake, its texts and choices are long enough, its end fits, and its
      address is new. It is then what was asked for, and the factory lists it with its own end. */
  lemma {:induction false} CreatedAsAsked(
      origin: World, events: seq<Event>, time: nat, author: Address, metadata: P.Metadata,
      asked: Option<P.PollConfig>, choices: seq<string>, nonce: string, address: Address)
    requires Run(origin, events).Ok? && Run(origin, events).value.time <= time
    ensures var w := Run(origin, events).value;
      var e := Event(time, CreatePoll(author, metadata, asked, choices, nonce, address));
      && (Commit(w, e).Ok?
          <==> && address !in w.polls
               && StakeOf(w, author) >= origin.factory.minStaked
               && |choices| >= 2 && |metadata.title| >= 2 && |metadata.description| >= 10 && |metadata.authorAlias| >= 3
               && time + ConfigOf(origin.factory, asked).duration < U64_LIMIT
               && origin.factory.idCounter + CreatedBy(events) + 1 < U128_LIMIT)
      && (Commit(w, e).Ok? ==>
            var poll := NewbornPoll(origin, time, asked, choices);
            Commit(w, e).value == w.(
              time := time,
              polls := w.polls[address := poll],
              factory := w.factory.(
                idCounter := w.factory.idCounter + 1,
                challenge := None,
                activePolls := w.factory.activePolls + [F.ActivePoll(address, poll.config.endTimestamp)])))
  {
    hide Run, CreatedBy;
    FactoryStays(origin, events);
  }
}
