/** What the weight-master's books say in every reachable state, and how much it can ever mint. */
module EmissionBound {
  import opened Chain
  import opened Messages
  import opened Schedule
  import opened WeightMaster
  import opened Sums
  import opened Division

  ghost function WeightAt(spies: map<Address, SpySettings>): Address -> int {
    a => if a in spies then spies[a].weight else 0
  }

  /** The emission a spy has not been updated on, times its weight. */
  ghost function BacklogAt(schedule: seq<ScheduleUnit>, spies: map<Address, SpySettings>, height: nat): Address -> int {
    a => if a in spies then spies[a].weight * Emission(schedule, spies[a].lastUpdateBlock, height) else 0
  }

  ghost function TotalSpyWeight(spies: map<Address, SpySettings>): int {
    Sum(spies.Keys, WeightAt(spies))
  }

  ghost function Backlog(schedule: seq<ScheduleUnit>, spies: map<Address, SpySettings>, height: nat): int {
    Sum(spies.Keys, BacklogAt(schedule, spies, height))
  }

  /** The bookkeeping: the total is one more than the stored weights, the schedule is sorted,
      and no checkpoint lies in the future. */
  ghost predicate Valid(s: State, now: nat) {
    && s.totalWeight == 1 + TotalSpyWeight(s.spies)
    && Sorted(s.schedule)
    && forall a | a in s.spies :: s.spies[a].lastUpdateBlock <= now
  }

  /** A contract just instantiated, with any sorted schedule. */
  ghost predicate Fresh(s: State) {
    s.totalWeight == 1 && s.spies == map[] && Sorted(s.schedule)
  }

  lemma InitIsFresh(admin: Address, schedule: seq<ScheduleUnit>)
    ensures Fresh(Init(admin, schedule))
  {
    SortIsStable(schedule, 0);
  }

  lemma FreshIsValid(s: State, now: nat)
    requires Fresh(s)
    ensures Valid(s, now)
  {
  }

  lemma TotalIsPositive(s: State, now: nat)
    requires Valid(s, now)
    ensures s.totalWeight > 0
  {
    SumNonNegative(s.spies.Keys, WeightAt(s.spies));
  }

  lemma {:induction false} MintedConcat(a: seq<Message>, b: seq<Message>)
    ensures Minted(a + b) == Minted(a) + Minted(b)
  {
    if b == [] {
      assert a + b == a;
    } else {
      var rest := b[..|b| - 1];
      MintedConcat(a, rest);
      assert (a + b)[..|a + b| - 1] == a + rest;
    }
  }

  lemma MintedPair(spy: Address, rewards: nat)
    ensures Minted([MintReward(spy, rewards), NotifyAllocation(spy, rewards)]) == rewards
  {
    var pair := [MintReward(spy, rewards), NotifyAllocation(spy, rewards)];
    var mint := [MintReward(spy, rewards)];
    assert pair[..1] == mint && mint[..0] == [];
    assert Minted(mint) == rewards;
  }

  /** A checkpoint at the current block clears a spy's backlog; paying for it first costs no
      more than the backlog was worth. */
  lemma Checkpoint(schedule: seq<ScheduleUnit>, spies: map<Address, SpySettings>, a: Address, weight: nat, height: nat)
    ensures var after := spies[a := SpySettings(weight, height)];
      && TotalSpyWeight(after) == TotalSpyWeight(spies) - WeightAt(spies)(a) + weight
      && Backlog(schedule, after, height)
         == Backlog(schedule, spies, height) - BacklogAt(schedule, spies, height)(a)
  {
    var after := spies[a := SpySettings(weight, height)];
    assert after.Keys == spies.Keys + {a};
    NoBacklogNow(schedule, after, a, height);
    hide Emission;
    SumUpdate(spies.Keys, WeightAt(spies), WeightAt(after), a);
    SumUpdate(spies.Keys, BacklogAt(schedule, spies, height), BacklogAt(schedule, after, height), a);
  }

  lemma NoBacklogNow(schedule: seq<ScheduleUnit>, spies: map<Address, SpySettings>, a: Address, height: nat)
    requires a in spies && spies[a].lastUpdateBlock == height
    ensures BacklogAt(schedule, spies, height)(a) == 0
  {
    assert Emission(schedule, height, height) == 0;
  }

  lemma RewardWithinBacklog(s: State, spies: map<Address, SpySettings>, a: Address, height: nat)
    requires a in spies && SpyRewards(s.schedule, spies[a], height, s.totalWeight).Ok?
    requires spies[a].lastUpdateBlock <= height
    ensures SpyRewards(s.schedule, spies[a], height, s.totalWeight).value * s.totalWeight
            <= BacklogAt(s.schedule, spies, height)(a)
  {
    var emitted := Emission(s.schedule, spies[a].lastUpdateBlock, height);
    DivideRemainder(emitted * spies[a].weight, s.totalWeight);
  }

  /** What holds after any part of a `set_weights` list, repeated addresses included. */
  ghost predicate Consistent(s: State, height: nat, p: Progress) {
    && TotalSpyWeight(p.spies) == TotalSpyWeight(s.spies) - p.oldWeights + p.newWeights
    && Minted(p.messages) * s.totalWeight + Backlog(s.schedule, p.spies, height)
       <= Backlog(s.schedule, s.spies, height)
    && (forall a | a in p.spies :: p.spies[a].lastUpdateBlock <= height)
  }

  lemma PaidFromBacklog(minted: nat, rewards: nat, total: nat, backlog: int, one: int, limit: int)
    requires minted * total + backlog <= limit && rewards * total <= one
    ensures (minted + rewards) * total + (backlog - one) <= limit
  {
    Distribute(minted, rewards, total);
  }

  /** What the loop body pays for one entry of the list. */
  function Payment(s: State, height: nat, p: Progress, info: WeightInfo): nat {
    var settings := SpyOf(p.spies, info.address, height);
    var rewards := SpyRewards(s.schedule, settings, height, s.totalWeight);
    if Stale(settings, height) && rewards.Ok? then rewards.value else 0
  }

  lemma PaymentMinted(s: State, height: nat, p: Progress, info: WeightInfo)
    requires SetOne(s, height, p, info).Ok?
    ensures Minted(SetOne(s, height, p, info).value.messages) == Minted(p.messages) + Payment(s, height, p, info)
  {
    var rewards := Payment(s, height, p, info);
    MintedPair(info.address, rewards);
    MintedConcat(p.messages, [MintReward(info.address, rewards), NotifyAllocation(info.address, rewards)]);
    MintedConcat(p.messages, []);
  }

  lemma PaymentWithinBacklog(s: State, height: nat, p: Progress, info: WeightInfo)
    requires SetOne(s, height, p, info).Ok?
    requires forall a | a in p.spies :: p.spies[a].lastUpdateBlock <= height
    ensures Payment(s, height, p, info) * s.totalWeight <= BacklogAt(s.schedule, p.spies, height)(info.address)
  {
    if Stale(SpyOf(p.spies, info.address, height), height) {
      RewardWithinBacklog(s, p.spies, info.address, height);
    }
  }

  lemma SetOnePays(s: State, height: nat, p: Progress, info: WeightInfo)
    requires Consistent(s, height, p) && SetOne(s, height, p, info).Ok?
    ensures var next := SetOne(s, height, p, info).value;
      Minted(next.messages) * s.totalWeight + Backlog(s.schedule, next.spies, height) <= Backlog(s.schedule, s.spies, height)
  {
    hide Minted, Backlog, BacklogAt, SpyRewards, TotalSpyWeight;
    PaymentMinted(s, height, p, info);
    PaymentWithinBacklog(s, height, p, info);
    Checkpoint(s.schedule, p.spies, info.address, info.weight, height);
    PaidFromBacklog(Minted(p.messages), Payment(s, height, p, info), s.totalWeight,
                    Backlog(s.schedule, p.spies, height), BacklogAt(s.schedule, p.spies, height)(info.address),
                    Backlog(s.schedule, s.spies, height));
  }

  lemma SetOneConsistent(s: State, height: nat, p: Progress, info: WeightInfo)
    requires Consistent(s, height, p) && SetOne(s, height, p, info).Ok?
    ensures Consistent(s, height, SetOne(s, height, p, info).value)
  {
    hide Minted, Backlog, BacklogAt, SpyRewards, TotalSpyWeight;
    SetOnePays(s, height, p, info);
    Checkpoint(s.schedule, p.spies, info.address, info.weight, height);
  }

  lemma {:induction false} SetAllConsistent(s: State, height: nat, weights: seq<WeightInfo>)
    requires SetAll(s, height, weights).Ok?
    requires forall a | a in s.spies :: s.spies[a].lastUpdateBlock <= height
    ensures Consistent(s, height, SetAll(s, height, weights).value)
  {
    if weights != [] {
      var before := weights[..|weights| - 1];
      SetAllConsistent(s, height, before);
      SetOneConsistent(s, height, SetAll(s, height, before).value, weights[|weights| - 1]);
    }
  }

  // --- One call ---

  lemma ApplyUpdateEffect(s: State, height: nat, spy: Address)
    requires Valid(s, height) && ApplyUpdate(s, height, spy).Ok?
    ensures var out := ApplyUpdate(s, height, spy).value;
      && Valid(out.state, height)
      && out.state.totalWeight == s.totalWeight && out.state.schedule == s.schedule
      && Minted(out.messages) * s.totalWeight + Backlog(s.schedule, out.state.spies, height)
         <= Backlog(s.schedule, s.spies, height)
  {
    if Stale(SpyOf(s.spies, spy, height), height) {
      Checkpoint(s.schedule, s.spies, spy, s.spies[spy].weight, height);
      RewardWithinBacklog(s, s.spies, spy, height);
      MintedPair(spy, SpyRewards(s.schedule, s.spies[spy], height, s.totalWeight).value);
    } else {
      var note := [NotifyAllocation(spy, 0)];
      assert note[..0] == [];
      assert Minted(note) == 0;
    }
  }

  lemma ApplySetWeightsEffect(s: State, height: nat, weights: seq<WeightInfo>)
    requires Valid(s, height) && ApplySetWeights(s, height, weights).Ok?
    ensures var out := ApplySetWeights(s, height, weights).value;
      && Valid(out.state, height)
      && out.state.schedule == s.schedule
      && Minted(out.messages) * s.totalWeight + Backlog(s.schedule, out.state.spies, height)
         <= Backlog(s.schedule, s.spies, height)
  {
    SetAllConsistent(s, height, weights);
  }

  lemma CallKeepsBooks(s: State, call: Call)
    requires Valid(s, call.height) && Handle(s, call).Ok?
    ensures Valid(Handle(s, call).value.state, call.height)
  {
    match call.request
    case Update(spy) => ApplyUpdateEffect(s, call.height, spy);
    case SetWeights(weights) => ApplySetWeightsEffect(s, call.height, weights);
    case SetSchedule(schedule) => SortIsStable(schedule, 0);
  }

  // --- Whole runs ---

  /** Block height never decreases. */
  ghost predicate Chronological(start: nat, calls: seq<Call>) {
    && (forall i | 0 <= i < |calls| :: start <= calls[i].height)
    && (forall i, j | 0 <= i < j < |calls| :: calls[i].height <= calls[j].height)
  }

  lemma ChronologicalPrefix(start: nat, calls: seq<Call>)
    requires calls != [] && Chronological(start, calls)
    ensures Chronological(start, calls[..|calls| - 1])
    ensures start <= Now(start, calls[..|calls| - 1]) <= calls[|calls| - 1].height == Now(start, calls)
  {
  }

  ghost predicate FixedSchedule(calls: seq<Call>) {
    forall call | call in calls :: !call.request.SetSchedule?
  }

  lemma FixedPrefix(calls: seq<Call>)
    requires calls != [] && FixedSchedule(calls)
    ensures FixedSchedule(calls[..|calls| - 1]) && !calls[|calls| - 1].request.SetSchedule?
  {
    assert calls[|calls| - 1] in calls;
  }

  function Now(start: nat, calls: seq<Call>): nat {
    if calls == [] then start else calls[|calls| - 1].height
  }

  /** Total weight and schedule order are right in every reachable state; in particular the
      division by the total weight never fails. */
  lemma {:induction false} BooksAlwaysKept(s: State, start: nat, calls: seq<Call>)
    requires Fresh(s) && Chronological(start, calls) && Run(s, calls).Ok?
    ensures Valid(Run(s, calls).value, Now(start, calls))
    ensures Run(s, calls).value.totalWeight > 0
  {
    if calls == [] {
      FreshIsValid(s, start);
    } else {
      var before := calls[..|calls| - 1];
      BooksAlwaysKept(s, start, before);
      CallKeepsBooks(Run(s, before).value, calls[|calls| - 1]);
    }
    TotalIsPositive(Run(s, calls).value, Now(start, calls));
  }

  /** No spy has anything left to be paid for past blocks. */
  ghost predicate NothingOwed(s: State, now: nat) {
    forall a | a in s.spies :: s.spies[a].weight * Emission(s.schedule, s.spies[a].lastUpdateBlock, now) == 0
  }

  /** The condition under which a change of weights cannot pay for past blocks twice: it does
      not lower the total, or leaves nothing to be paid for past blocks. */
  ghost predicate Disciplined(s: State, call: Call) {
    call.request.SetWeights? && Handle(s, call).Ok? ==>
      var t := Handle(s, call).value.state;
      t.totalWeight >= s.totalWeight || NothingOwed(t, call.height)
  }

  /** In particular when every spy with weight is checkpointed at the current block. */
  lemma CheckpointedOwesNothing(s: State, now: nat)
    requires Valid(s, now) && forall a | a in s.spies :: !Stale(s.spies[a], now)
    ensures NothingOwed(s, now)
  {
    forall a | a in s.spies
      ensures s.spies[a].weight * Emission(s.schedule, s.spies[a].lastUpdateBlock, now) == 0
    {
      assert s.spies[a].weight > 0 ==> s.spies[a].lastUpdateBlock == now;
    }
  }

  /** What a spy is still to be paid for past blocks, backlog over total weight, has grown. */
  ghost predicate ClaimGrows(s: State, t: State, now: nat, a: Address) {
    BacklogAt(s.schedule, s.spies, now)(a) * t.totalWeight < BacklogAt(t.schedule, t.spies, now)(a) * s.totalWeight
  }

  lemma {:induction false} ListedOrLeft(s: State, height: nat, weights: seq<WeightInfo>, a: Address)
    requires SetAll(s, height, weights).Ok?
    ensures var after := SetAll(s, height, weights).value.spies;
      || (a in after && after[a].lastUpdateBlock == height)
      || ((a in after <==> a in s.spies) && (a in s.spies ==> after[a] == s.spies[a]))
  {
    if weights != [] {
      ListedOrLeft(s, height, weights[..|weights| - 1], a);
    }
  }

  lemma ClaimGrowsIf(s: State, t: State, now: nat, a: Address)
    requires s.totalWeight > 0 && t.schedule == s.schedule
    requires || (a in t.spies && t.spies[a].lastUpdateBlock == now)
             || ((a in t.spies <==> a in s.spies) && (a in s.spies ==> t.spies[a] == s.spies[a]))
    ensures ClaimGrows(s, t, now, a)
            <==> t.totalWeight < s.totalWeight && BacklogAt(t.schedule, t.spies, now)(a) > 0
  {
    var before, after := BacklogAt(s.schedule, s.spies, now)(a), BacklogAt(t.schedule, t.spies, now)(a);
    if a in t.spies && t.spies[a].lastUpdateBlock == now {
      assert Emission(t.schedule, now, now) == 0;
      assert after == 0 && before * t.totalWeight >= 0;
    } else if after > 0 {
      assert before == after;
      if t.totalWeight < s.totalWeight {
        MultiplyLess(t.totalWeight, s.totalWeight, after);
      } else {
        MultiplyMonotone(s.totalWeight, t.totalWeight, after);
      }
    }
  }

  lemma MultiplyLess(a: nat, b: nat, c: nat)
    requires a < b && c > 0
    ensures c * a < c * b
  {
  }

  /** A change of weights makes some claim on past blocks grow exactly if it is undisciplined. */
  lemma ClaimsGrowIff(s: State, call: Call)
    requires Valid(s, call.height) && call.request.SetWeights? && Handle(s, call).Ok?
    ensures var t := Handle(s, call).value.state;
      (exists a :: ClaimGrows(s, t, call.height, a)) <==> !Disciplined(s, call)
  {
    hide ClaimGrows, Valid, SetAll;
    var t := Handle(s, call).value.state;
    TotalIsPositive(s, call.height);
    forall a
      ensures ClaimGrows(s, t, call.height, a)
              <==> t.totalWeight < s.totalWeight && BacklogAt(t.schedule, t.spies, call.height)(a) > 0
    {
      ListedOrLeft(s, call.height, call.request.weights, a);
      ClaimGrowsIf(s, t, call.height, a);
    }
    if !Disciplined(s, call) {
      var a :| a in t.spies && t.spies[a].weight * Emission(t.schedule, t.spies[a].lastUpdateBlock, call.height) != 0;
      assert BacklogAt(t.schedule, t.spies, call.height)(a) > 0;
      assert ClaimGrows(s, t, call.height, a);
    }
  }

  ghost predicate DisciplinedRun(s: State, calls: seq<Call>)
    requires Run(s, calls).Ok?
  {
    calls == [] ||
    (var before := calls[..|calls| - 1];
     DisciplinedRun(s, before) && Disciplined(Run(s, before).value, calls[|calls| - 1]))
  }

  ghost function TotalMinted(s: State, calls: seq<Call>): nat
    requires Run(s, calls).Ok?
  {
    if calls == [] then 0
    else
      var before := calls[..|calls| - 1];
      TotalMinted(s, before) + Minted(Handle(Run(s, before).value, calls[|calls| - 1]).value.messages)
  }

  /** What is minted and what is still to be paid, against all that was emitted. */
  ghost predicate Covered(s: State, start: nat, now: nat, minted: nat) {
    minted * s.totalWeight + Backlog(s.schedule, s.spies, now) <= s.totalWeight * Emission(s.schedule, start, now)
  }

  lemma {:induction false} OneBacklogGrows(schedule: seq<ScheduleUnit>, settings: SpySettings, now: nat, later: nat)
    requires settings.lastUpdateBlock <= now <= later
    ensures settings.weight * Emission(schedule, settings.lastUpdateBlock, later)
            == settings.weight * Emission(schedule, settings.lastUpdateBlock, now)
               + Emission(schedule, now, later) * settings.weight
  {
    hide *;
    EmissionSplits(schedule, settings.lastUpdateBlock, now, later);
    Distribute(Emission(schedule, settings.lastUpdateBlock, now), Emission(schedule, now, later), settings.weight);
  }

  lemma BacklogSums(s: State, now: nat, later: nat)
    requires Valid(s, now) && now <= later
    ensures Backlog(s.schedule, s.spies, later)
            == Backlog(s.schedule, s.spies, now) + Emission(s.schedule, now, later) * TotalSpyWeight(s.spies)
  {
    forall a | a in s.spies
      ensures BacklogAt(s.schedule, s.spies, later)(a)
              == BacklogAt(s.schedule, s.spies, now)(a) + Emission(s.schedule, now, later) * WeightAt(s.spies)(a)
    {
      OneBacklogGrows(s.schedule, s.spies[a], now, later);
    }
    SumLinear(s.spies.Keys, BacklogAt(s.schedule, s.spies, now), Emission(s.schedule, now, later), WeightAt(s.spies),
              BacklogAt(s.schedule, s.spies, later));
  }

  lemma GrowthCovered(minted: nat, total: nat, backlog: int, before: nat, more: nat)
    requires minted * total + backlog <= total * before
    ensures minted * total + backlog + more * (total - 1) <= total * (before + more)
  {
    Distribute(before, more, total);
    Distribute(total - 1, 1, more);
  }

  /** As blocks pass, the backlog grows by no more than the emission. */
  lemma BacklogGrows(s: State, start: nat, now: nat, later: nat, minted: nat)
    requires Valid(s, now) && start <= now <= later && Covered(s, start, now, minted)
    ensures Covered(s, start, later, minted) && Valid(s, later)
  {
    BacklogSums(s, now, later);
    EmissionSplits(s.schedule, start, now, later);
    GrowthCovered(minted, s.totalWeight, Backlog(s.schedule, s.spies, now), Emission(s.schedule, start, now),
                  Emission(s.schedule, now, later));
  }

  lemma BacklogNonNegative(s: State, now: nat)
    ensures Backlog(s.schedule, s.spies, now) >= 0
  {
    SumNonNegative(s.spies.Keys, BacklogAt(s.schedule, s.spies, now));
  }

  lemma NoBacklog(s: State, now: nat)
    requires NothingOwed(s, now)
    ensures Backlog(s.schedule, s.spies, now) == 0
  {
    SumAgree(s.spies.Keys, BacklogAt(s.schedule, s.spies, now), _ => 0);
    SumAtMost(s.spies.Keys, _ => 0, 0);
    SumNonNegative(s.spies.Keys, BacklogAt(s.schedule, s.spies, now));
  }

  /** Moving from one total weight to another: the arithmetic core of the bound. */
  lemma ChangeTotal(minted: nat, backlog: nat, emitted: nat, was: nat, becomes: nat)
    requires was > 0 && minted * was + backlog <= was * emitted
    requires becomes >= was || backlog == 0
    ensures minted * becomes + backlog <= becomes * emitted
  {
    CancelFactor(minted, emitted, was);
    if becomes >= was {
      MultiplyMonotone(minted, emitted, becomes - was);
      Distribute(was, becomes - was, minted);
      Distribute(was, becomes - was, emitted);
    } else {
      MultiplyMonotone(minted, emitted, becomes);
    }
  }

  lemma CallCovered(s: State, call: Call, start: nat, minted: nat)
    requires Valid(s, call.height) && start <= call.height && Covered(s, start, call.height, minted)
    requires Handle(s, call).Ok? && !call.request.SetSchedule? && Disciplined(s, call)
    ensures var out := Handle(s, call).value;
      out.state.schedule == s.schedule && Covered(out.state, start, call.height, minted + Minted(out.messages))
  {
    hide Minted, Backlog, BacklogAt, Emission, ApplyUpdate, ApplySetWeights;
    var out := Handle(s, call).value;
    var t := out.state;
    TotalIsPositive(s, call.height);
    BacklogNonNegative(t, call.height);
    Distribute(minted, Minted(out.messages), s.totalWeight);
    match call.request
    case Update(spy) =>
      ApplyUpdateEffect(s, call.height, spy);
    case SetWeights(weights) =>
      ApplySetWeightsEffect(s, call.height, weights);
      if t.totalWeight < s.totalWeight {
        NoBacklog(t, call.height);
      }
      ChangeTotal(minted + Minted(out.messages), Backlog(t.schedule, t.spies, call.height),
                  Emission(s.schedule, start, call.height), s.totalWeight, t.totalWeight);
  }

  lemma FreshCovered(s: State, start: nat)
    requires Fresh(s)
    ensures Covered(s, start, start, 0)
  {
    assert Emission(s.schedule, start, start) == 0;
  }

  lemma {:induction false} RunCovered(s: State, start: nat, calls: seq<Call>)
    requires Fresh(s) && Chronological(start, calls) && Run(s, calls).Ok?
    requires DisciplinedRun(s, calls)
    requires FixedSchedule(calls)
    ensures var t := Run(s, calls).value;
      t.schedule == s.schedule && Covered(t, start, Now(start, calls), TotalMinted(s, calls))
  {
    hide Covered, Valid, Handle, Minted, Disciplined, Chronological, FixedSchedule, Fresh;
    if calls == [] {
      FreshCovered(s, start);
    } else {
      var before := calls[..|calls| - 1];
      var call := calls[|calls| - 1];
      ChronologicalPrefix(start, calls);
      FixedPrefix(calls);
      RunCovered(s, start, before);
      BooksAlwaysKept(s, start, before);
      var t := Run(s, before).value;
      BacklogGrows(t, start, Now(start, before), call.height, TotalMinted(s, before));
      CallCovered(t, call, start, TotalMinted(s, before));
      assert Run(s, calls).value == Handle(t, call).value.state;
      assert TotalMinted(s, calls) == TotalMinted(s, before) + Minted(Handle(t, call).value.messages);
    }
  }

  lemma CoveredBound(s: State, start: nat, now: nat, minted: nat)
    requires s.totalWeight > 0 && Covered(s, start, now, minted)
    ensures minted <= Emission(s.schedule, start, now)
  {
    BacklogNonNegative(s, now);
    CancelFactor(minted, Emission(s.schedule, start, now), s.totalWeight);
  }

  /** With a fixed schedule and disciplined changes of weight, no sequence of updates by anyone
      mints more than the schedule emitted since the start. */
  lemma NeverOverMints(s: State, start: nat, calls: seq<Call>)
    requires Fresh(s) && Chronological(start, calls) && Run(s, calls).Ok?
    requires DisciplinedRun(s, calls)
    requires FixedSchedule(calls)
    ensures TotalMinted(s, calls) <= Emission(s.schedule, start, Now(start, calls))
  {
    RunCovered(s, start, calls);
    BooksAlwaysKept(s, start, calls);
    CoveredBound(Run(s, calls).value, start, Now(start, calls), TotalMinted(s, calls));
  }

  // --- The counters of set_weights ---

  ghost predicate DistinctAddresses(weights: seq<WeightInfo>) {
    forall i, j | 0 <= i < j < |weights| :: weights[i].address != weights[j].address
  }

  ghost function Listed(weights: seq<WeightInfo>): set<Address> {
    set info | info in weights :: info.address
  }

  /** On a list without repetitions each old weight is counted once, so the counter stays
      within the stored weights. */
  lemma {:induction false} OldWeightsCounted(s: State, height: nat, weights: seq<WeightInfo>)
    requires DistinctAddresses(weights) && SetAll(s, height, weights).Ok?
    ensures var p := SetAll(s, height, weights).value;
      && p.oldWeights + Sum(s.spies.Keys - Listed(weights), WeightAt(s.spies)) == TotalSpyWeight(s.spies)
      && forall a | a !in Listed(weights) :: SpyOf(p.spies, a, height) == SpyOf(s.spies, a, height)
  {
    hide SpyRewards, Stale;
    if weights == [] {
      assert s.spies.Keys - Listed(weights) == s.spies.Keys;
    } else {
      var before := weights[..|weights| - 1];
      var a := weights[|weights| - 1].address;
      OldWeightsCounted(s, height, before);
      ListedOneMore(weights);
      DropOne(s.spies.Keys - Listed(before), WeightAt(s.spies), a);
      assert s.spies.Keys - Listed(weights) == s.spies.Keys - Listed(before) - {a};
    }
  }

  lemma ListedOneMore(weights: seq<WeightInfo>)
    requires weights != []
    ensures var a := weights[|weights| - 1].address;
      && Listed(weights) == Listed(weights[..|weights| - 1]) + {a}
      && (DistinctAddresses(weights) ==> a !in Listed(weights[..|weights| - 1]))
  {
    var before := weights[..|weights| - 1];
    assert weights == before + [weights[|weights| - 1]];
  }

  lemma DropOne(keys: set<Address>, f: Address -> int, a: Address)
    requires a !in keys ==> f(a) == 0
    ensures Sum(keys, f) == f(a) + Sum(keys - {a}, f)
  {
    if a in keys {
      SumPick(keys, f, a);
    } else {
      assert keys - {a} == keys;
    }
  }

  /** Distinct addresses cannot make the subtraction of the old weights underflow. */
  lemma DistinctNeverUnderflows(s: State, height: nat, weights: seq<WeightInfo>)
    requires Valid(s, height) && DistinctAddresses(weights) && SetAll(s, height, weights).Ok?
    ensures Sub(s.totalWeight, SetAll(s, height, weights).value.oldWeights).Ok?
  {
    OldWeightsCounted(s, height, weights);
    SumNonNegative(s.spies.Keys - Listed(weights), WeightAt(s.spies));
  }

  /** The weight an address has once a list is through. */
  function WeightAfter(s: State, weights: seq<WeightInfo>, a: Address): nat {
    if weights == [] then (if a in s.spies then s.spies[a].weight else 0)
    else if weights[|weights| - 1].address == a then weights[|weights| - 1].weight
    else WeightAfter(s, weights[..|weights| - 1], a)
  }

  /** The weights that a list replaces, its own earlier entries included. */
  function Replaced(s: State, weights: seq<WeightInfo>): nat {
    if weights == [] then 0
    else
      var before := weights[..|weights| - 1];
      Replaced(s, before) + WeightAfter(s, before, weights[|weights| - 1].address)
  }

  function Given(weights: seq<WeightInfo>): nat {
    if weights == [] then 0 else Given(weights[..|weights| - 1]) + weights[|weights| - 1].weight
  }

  lemma {:induction false} CountersCount(s: State, height: nat, weights: seq<WeightInfo>)
    requires SetAll(s, height, weights).Ok?
    ensures var p := SetAll(s, height, weights).value;
      && p.oldWeights == Replaced(s, weights) && p.newWeights == Given(weights)
      && forall a :: SpyOf(p.spies, a, height).weight == WeightAfter(s, weights, a)
  {
    if weights != [] {
      CountersCount(s, height, weights[..|weights| - 1]);
    }
  }

  /** For any list, repeated addresses included: once every entry is through, the call commits
      exactly if the weights it replaces are within the total and the new total fits. */
  lemma CommitsIff(s: State, height: nat, weights: seq<WeightInfo>)
    requires SetAll(s, height, weights).Ok?
    ensures ApplySetWeights(s, height, weights).Ok?
            <==> && Replaced(s, weights) <= s.totalWeight
                 && s.totalWeight - Replaced(s, weights) + Given(weights) < U64_LIMIT
  {
    CountersCount(s, height, weights);
  }

  // --- Queries and idempotence ---

  /** What the query answers for a block is what an update at that block grants. */
  lemma QueryIsWhatUpdateGrants(s: State, height: nat, spy: Address)
    requires Valid(s, height) && QueryPending(s, spy, height).Ok?
    ensures ApplyUpdate(s, height, spy).Ok?
    ensures var out := ApplyUpdate(s, height, spy).value;
      && Minted(out.messages) == QueryPending(s, spy, height).value
      && out.messages[|out.messages| - 1] == NotifyAllocation(spy, QueryPending(s, spy, height).value)
      && QueryPending(out.state, spy, height) == Ok(0)
  {
    TotalIsPositive(s, height);
    var settings := SpyOf(s.spies, spy, height);
    var granted := QueryPending(s, spy, height).value;
    if Stale(settings, height) {
      MintedPair(spy, granted);
    } else {
      NothingToShare(s.schedule, settings, height, s.totalWeight);
      ApplyUpdateEffect(s, height, spy);
      var note := [NotifyAllocation(spy, 0)];
      assert note[..0] == [] && Minted(note) == 0;
    }
    NothingToShare(s.schedule, SpyOf(ApplyUpdate(s, height, spy).value.state.spies, spy, height), height, s.totalWeight);
  }

  lemma NothingToShare(schedule: seq<ScheduleUnit>, settings: SpySettings, height: nat, totalWeight: nat)
    requires totalWeight > 0 && (settings.weight == 0 || settings.lastUpdateBlock >= height)
    requires settings.lastUpdateBlock <= height
    requires SpyRewards(schedule, settings, height, totalWeight).Ok? || settings.lastUpdateBlock == height
    ensures SpyRewards(schedule, settings, height, totalWeight) == Ok(0)
  {
    if settings.lastUpdateBlock == height {
      assert Emission(schedule, height, height) == 0;
    } else {
      assert Emission(schedule, settings.lastUpdateBlock, height) * settings.weight == 0;
    }
  }
}
