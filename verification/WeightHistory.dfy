/** The weight-master's books and grants read off the calls alone: which schedule is in force, what
    each spy weighs and since when, and what each call mints for it. */
module WeightHistory {
  import opened Chain
  import opened EmissionBound
  import opened Messages
  import opened Schedule
  import opened Sums
  import opened WeightMaster

  // --- A schedule as it was given, in any order ---

  /** Among the units that have not ended, the first of those that end first. */
  function FirstToEnd(given: seq<ScheduleUnit>, block: nat): Option<ScheduleUnit> {
    if given == [] then None
    else
      var rest := FirstToEnd(given[1..], block);
      if block < given[0].endBlock && (rest.None? || given[0].endBlock <= rest.value.endBlock) then Some(given[0]) else rest
  }

  function GivenRate(given: seq<ScheduleUnit>, block: nat): nat {
    match FirstToEnd(given, block)
    case Some(unit) => unit.mintPerBlock
    case None => 0
  }

  function GivenEmission(given: seq<ScheduleUnit>, from: nat, to: nat): nat
    decreases to
  {
    if to <= from then 0 else GivenEmission(given, from, to - 1) + GivenRate(given, to - 1)
  }

  lemma {:induction false} InsertKeepsFirst(unit: ScheduleUnit, sorted: seq<ScheduleUnit>, block: nat)
    ensures FirstToEnd(Insert(unit, sorted), block) == FirstToEnd([unit] + sorted, block)
  {
    assert ([unit] + sorted)[1..] == sorted;
    if sorted != [] && sorted[0].endBlock < unit.endBlock {
      InsertKeepsFirst(unit, sorted[1..], block);
      assert ([unit] + sorted[1..])[1..] == sorted[1..];
      assert Insert(unit, sorted)[1..] == Insert(unit, sorted[1..]);
    }
  }

  lemma {:induction false} SortKeepsFirst(given: seq<ScheduleUnit>, block: nat)
    ensures FirstToEnd(SortSchedule(given), block) == FirstToEnd(given, block)
  {
    if given != [] {
      SortKeepsFirst(given[1..], block);
      InsertKeepsFirst(given[0], SortSchedule(given[1..]), block);
      assert ([given[0]] + SortSchedule(given[1..]))[1..] == SortSchedule(given[1..]);
    }
  }

  /** On a sorted schedule the first unit that has not ended is the first to end. */
  lemma {:induction false} SortedRate(schedule: seq<ScheduleUnit>, block: nat)
    requires Sorted(schedule)
    ensures RateAt(schedule, block) == GivenRate(schedule, block)
    ensures FirstToEnd(schedule, block).Some? ==> FirstToEnd(schedule, block).value in schedule
  {
    if schedule != [] {
      SortedRate(schedule[1..], block);
    }
  }

  /** The stored order makes no difference to what a given schedule emits. */
  lemma RateAsGiven(given: seq<ScheduleUnit>, block: nat)
    ensures RateAt(SortSchedule(given), block) == GivenRate(given, block)
  {
    SortIsStable(given, block);
    SortedRate(SortSchedule(given), block);
    SortKeepsFirst(given, block);
  }

  lemma {:induction false} EmissionAsGiven(given: seq<ScheduleUnit>, from: nat, to: nat)
    ensures Emission(SortSchedule(given), from, to) == GivenEmission(given, from, to)
  {
    if from < to {
      EmissionAsGiven(given, from, to - 1);
      RateAsGiven(given, to - 1);
    }
  }

  // --- What the calls alone say ---

  /** The schedule given last, or at init. */
  function ScheduleBy(given: seq<ScheduleUnit>, calls: seq<Call>): seq<ScheduleUnit> {
    if calls == [] then given
    else
      match calls[|calls| - 1].request
      case SetSchedule(schedule) => schedule
      case _ => ScheduleBy(given, calls[..|calls| - 1])
  }

  /** The last weight a list gives an address, if it gives one. */
  function ListWeight(weights: seq<WeightInfo>, a: Address): Option<nat> {
    if weights == [] then None
    else if weights[|weights| - 1].address == a then Some(weights[|weights| - 1].weight)
    else ListWeight(weights[..|weights| - 1], a)
  }

  function WeightBy(calls: seq<Call>, a: Address): nat {
    if calls == [] then 0
    else
      var before := WeightBy(calls[..|calls| - 1], a);
      match calls[|calls| - 1].request
      case SetWeights(weights) => if ListWeight(weights, a).Some? then ListWeight(weights, a).value else before
      case _ => before
  }

  /** The block up to which a spy has been paid: where it was last listed, or updated with weight. */
  function CheckpointBy(calls: seq<Call>, a: Address): nat {
    if calls == [] then 0
    else
      var before := calls[..|calls| - 1];
      var call := calls[|calls| - 1];
      match call.request
      case SetWeights(weights) => if ListWeight(weights, a).Some? then call.height else CheckpointBy(before, a)
      case Update(spy) => if spy == a && WeightBy(before, a) > 0 then call.height else CheckpointBy(before, a)
      case _ => CheckpointBy(before, a)
  }

  /** Everybody who was ever listed. */
  ghost function KnownBy(calls: seq<Call>): set<Address> {
    if calls == [] then {}
    else
      match calls[|calls| - 1].request
      case SetWeights(weights) => KnownBy(calls[..|calls| - 1]) + Listed(weights)
      case _ => KnownBy(calls[..|calls| - 1])
  }

  ghost function WeightsBy(calls: seq<Call>): Address -> int {
    a => WeightBy(calls, a)
  }

  ghost function TotalBy(calls: seq<Call>): int {
    1 + Sum(KnownBy(calls), WeightsBy(calls))
  }

  predicate Touches(call: Call, a: Address) {
    match call.request
    case Update(spy) => spy == a
    case SetWeights(weights) => ListWeight(weights, a).Some?
    case SetSchedule(_) => false
  }

  /** What a call is to grant `a`: for the blocks since its checkpoint, its weight's share of what
      the schedule in force emitted. */
  ghost function DueTo(given: seq<ScheduleUnit>, calls: seq<Call>, call: Call, a: Address): nat {
    if Touches(call, a) && TotalBy(calls) > 0
    then GivenEmission(ScheduleBy(given, calls), CheckpointBy(calls, a), call.height) * WeightBy(calls, a) / TotalBy(calls)
    else 0
  }

  // --- What messages bring to one spy ---

  function MintedTo(ms: seq<Message>, a: Address): nat {
    if ms == [] then 0
    else
      var m := ms[|ms| - 1];
      MintedTo(ms[..|ms| - 1], a) + (if m.MintReward? && m.minted == a then m.mintAmount else 0)
  }

  function NotifiedTo(ms: seq<Message>, a: Address): nat {
    if ms == [] then 0
    else
      var m := ms[|ms| - 1];
      NotifiedTo(ms[..|ms| - 1], a) + (if m.NotifyAllocation? && m.notified == a then m.granted else 0)
  }

  lemma {:induction false} GrantsConcat(x: seq<Message>, y: seq<Message>, a: Address)
    ensures MintedTo(x + y, a) == MintedTo(x, a) + MintedTo(y, a)
    ensures NotifiedTo(x + y, a) == NotifiedTo(x, a) + NotifiedTo(y, a)
  {
    if y == [] {
      assert x + y == x;
    } else {
      GrantsConcat(x, y[..|y| - 1], a);
      assert (x + y)[..|x + y| - 1] == x + y[..|y| - 1];
    }
  }

  lemma PairGrants(spy: Address, rewards: nat, a: Address)
    ensures var pair := [MintReward(spy, rewards), NotifyAllocation(spy, rewards)];
      MintedTo(pair, a) == NotifiedTo(pair, a) == (if a == spy then rewards else 0)
  {
    var pair := [MintReward(spy, rewards), NotifyAllocation(spy, rewards)];
    assert pair[..1] == [MintReward(spy, rewards)] && pair[..1][..0] == [];
    assert MintedTo(pair[..1], a) == (if a == spy then rewards else 0) && NotifiedTo(pair[..1], a) == 0;
  }

  lemma NoteGrants(spy: Address, a: Address)
    ensures MintedTo([NotifyAllocation(spy, 0)], a) == NotifiedTo([NotifyAllocation(spy, 0)], a) == 0
  {
    assert [NotifyAllocation(spy, 0)][..0] == [];
  }

  // --- One call, in terms of the state ---

  /** What is due to `a` in a state, whoever asks for it. */
  ghost function Due(s: State, height: nat, a: Address): nat {
    var settings := SpyOf(s.spies, a, height);
    if Stale(settings, height) && s.totalWeight > 0
    then Emission(s.schedule, settings.lastUpdateBlock, height) * settings.weight / s.totalWeight else 0
  }

  predicate FitsIn(s: State, height: nat, a: Address) {
    Stale(SpyOf(s.spies, a, height), height) ==> SpyRewards(s.schedule, SpyOf(s.spies, a, height), height, s.totalWeight).Ok?
  }

  lemma DueIsRewards(s: State, height: nat, a: Address)
    requires s.totalWeight > 0 && Stale(SpyOf(s.spies, a, height), height) && FitsIn(s, height, a)
    ensures SpyRewards(s.schedule, SpyOf(s.spies, a, height), height, s.totalWeight) == Ok(Due(s, height, a))
  {
  }

  /** How far a list has changed the books of `a`, and what it has granted it. */
  ghost predicate ListDone(s: State, height: nat, p: Progress, a: Address, listed: Option<nat>) {
    && MintedTo(p.messages, a) == NotifiedTo(p.messages, a) == (if listed.Some? then Due(s, height, a) else 0)
    && (if listed.Some? then a in p.spies && p.spies[a] == SpySettings(listed.value, height)
        else (a in p.spies <==> a in s.spies) && SpyOf(p.spies, a, height) == SpyOf(s.spies, a, height))
  }

  lemma EntryDone(s: State, height: nat, p: Progress, info: WeightInfo, a: Address, listed: Option<nat>, b: Option<nat>)
    requires s.totalWeight > 0 && SetOne(s, height, p, info).Ok?
    requires ListDone(s, height, p, a, listed) && ListDone(s, height, p, info.address, b)
    ensures ListDone(s, height, SetOne(s, height, p, info).value, a, if info.address == a then Some(info.weight) else listed)
  {
    hide MintedTo, NotifiedTo, Due;
    var settings := SpyOf(p.spies, info.address, height);
    if Stale(settings, height) {
      assert b.None?;
      DueIsRewards(s, height, info.address);
      PairGrants(info.address, Due(s, height, info.address), a);
      GrantsConcat(p.messages, [MintReward(info.address, Due(s, height, info.address)),
                                NotifyAllocation(info.address, Due(s, height, info.address))], a);
    } else {
      assert p.messages + [] == p.messages;
      if b.None? {
        NotDue(s, height, info.address);
      }
    }
  }

  lemma NotDue(s: State, height: nat, a: Address)
    requires !Stale(SpyOf(s.spies, a, height), height)
    ensures Due(s, height, a) == 0
  {
  }

  lemma {:induction false} ListGrants(s: State, height: nat, weights: seq<WeightInfo>, a: Address)
    requires s.totalWeight > 0 && SetAll(s, height, weights).Ok?
    ensures ListDone(s, height, SetAll(s, height, weights).value, a, ListWeight(weights, a))
  {
    hide ListDone, SetOne;
    if weights == [] {
      NothingDone(s, height, a);
    } else {
      var before := weights[..|weights| - 1];
      var info := weights[|weights| - 1];
      ListGrants(s, height, before, a);
      ListGrants(s, height, before, info.address);
      EntryDone(s, height, SetAll(s, height, before).value, info, a, ListWeight(before, a),
                ListWeight(before, info.address));
    }
  }

  lemma NothingDone(s: State, height: nat, a: Address)
    ensures ListDone(s, height, Progress(s.spies, [], 0, 0), a, None)
  {
  }

  /** What one committed call does to the books of `a` and grants it. */
  ghost predicate CallDone(s: State, call: Call, out: Outcome, a: Address) {
    && MintedTo(out.messages, a) == NotifiedTo(out.messages, a) == (if Touches(call, a) then Due(s, call.height, a) else 0)
    && (match call.request
        case SetWeights(weights) =>
          if ListWeight(weights, a).Some?
          then a in out.state.spies && out.state.spies[a] == SpySettings(ListWeight(weights, a).value, call.height)
          else SameSpy(s.spies, out.state.spies, a)
        case Update(spy) =>
          if spy == a && Stale(SpyOf(s.spies, a, call.height), call.height)
          then a in out.state.spies && out.state.spies[a] == SpySettings(s.spies[a].weight, call.height)
          else SameSpy(s.spies, out.state.spies, a)
        case SetSchedule(_) => out.state.spies == s.spies)
  }

  ghost predicate SameSpy(before: map<Address, SpySettings>, after: map<Address, SpySettings>, a: Address) {
    (a in after <==> a in before) && (a in before ==> after[a] == before[a])
  }

  lemma UpdateDone(s: State, height: nat, sender: Address, spy: Address, a: Address)
    requires s.totalWeight > 0 && ApplyUpdate(s, height, spy).Ok?
    ensures CallDone(s, Call(height, sender, Update(spy)), ApplyUpdate(s, height, spy).value, a)
  {
    hide MintedTo, NotifiedTo, Due;
    if Stale(SpyOf(s.spies, spy, height), height) {
      DueIsRewards(s, height, spy);
      PairGrants(spy, Due(s, height, spy), a);
    } else {
      NoteGrants(spy, a);
      NotDue(s, height, spy);
    }
  }

  lemma CallIsDone(s: State, call: Call, a: Address)
    requires s.totalWeight > 0 && Handle(s, call).Ok?
    ensures CallDone(s, call, Handle(s, call).value, a)
  {
    hide MintedTo, NotifiedTo, Due, ApplyUpdate, SetAll;
    match call.request
    case Update(spy) =>
      UpdateDone(s, call.height, call.sender, spy, a);
      assert call == Call(call.height, call.sender, Update(spy));
    case SetWeights(weights) => ListGrants(s, call.height, weights, a);
    case SetSchedule(_) => NoMessages(a);
  }

  lemma NoMessages(a: Address)
    ensures MintedTo([], a) == NotifiedTo([], a) == 0
  {
  }

  // --- Whole runs ---

  /** The books agree with what the calls alone say. */
  ghost predicate Agrees(given: seq<ScheduleUnit>, admin: Address, calls: seq<Call>, t: State) {
    && t.admin == admin
    && t.schedule == SortSchedule(ScheduleBy(given, calls))
    && t.spies.Keys == KnownBy(calls)
    && forall a | a in t.spies :: t.spies[a] == SpySettings(WeightBy(calls, a), CheckpointBy(calls, a))
  }

  /** Unknown spies have no weight. */
  lemma {:induction false} UnknownWeightless(calls: seq<Call>, a: Address)
    requires a !in KnownBy(calls)
    ensures WeightBy(calls, a) == 0
  {
    if calls != [] {
      UnknownWeightless(calls[..|calls| - 1], a);
      match calls[|calls| - 1].request {
        case SetWeights(weights) => ListedHasWeight(weights, a);
        case _ =>
      }
    }
  }

  lemma {:induction false} ListedHasWeight(weights: seq<WeightInfo>, a: Address)
    ensures ListWeight(weights, a).Some? <==> a in Listed(weights)
  {
    if weights != [] {
      ListedHasWeight(weights[..|weights| - 1], a);
      ListedOneMore(weights);
    }
  }

  lemma SpyAgrees(given: seq<ScheduleUnit>, admin: Address, calls: seq<Call>, t: State, call: Call, now: nat, a: Address)
    requires Agrees(given, admin, calls, t) && Valid(t, now) && now <= call.height
    requires t.totalWeight > 0 && Handle(t, call).Ok?
    ensures var out := Handle(t, call).value;
      && (a in out.state.spies <==> a in KnownBy(calls + [call]))
      && (a in out.state.spies ==>
            out.state.spies[a] == SpySettings(WeightBy(calls + [call], a), CheckpointBy(calls + [call], a)))
  {
    hide MintedTo, NotifiedTo, Due, Handle, TotalSpyWeight, Sorted;
    assert (calls + [call])[..|calls|] == calls;
    CallIsDone(t, call, a);
    UnknownHasNothing(calls, a);
    match call.request
    case SetWeights(weights) => ListedHasWeight(weights, a);
    case _ =>
  }

  lemma UnknownHasNothing(calls: seq<Call>, a: Address)
    ensures a !in KnownBy(calls) ==> WeightBy(calls, a) == 0
  {
    if a !in KnownBy(calls) {
      UnknownWeightless(calls, a);
    }
  }

  lemma ScheduleAgrees(given: seq<ScheduleUnit>, calls: seq<Call>, t: State, call: Call)
    requires t.schedule == SortSchedule(ScheduleBy(given, calls)) && Handle(t, call).Ok?
    ensures Handle(t, call).value.state.schedule == SortSchedule(ScheduleBy(given, calls + [call]))
    ensures Handle(t, call).value.state.admin == t.admin
  {
    hide SortSchedule, SetAll, SpyRewards;
    assert (calls + [call])[..|calls|] == calls;
  }

  lemma CallAgrees(given: seq<ScheduleUnit>, admin: Address, calls: seq<Call>, t: State, call: Call, now: nat)
    requires Agrees(given, admin, calls, t) && Valid(t, now) && now <= call.height
    requires t.totalWeight > 0 && Handle(t, call).Ok?
    ensures Agrees(given, admin, calls + [call], Handle(t, call).value.state)
  {
    var out := Handle(t, call).value;
    ScheduleAgrees(given, calls, t, call);
    forall a
      ensures a in out.state.spies <==> a in KnownBy(calls + [call])
      ensures a in out.state.spies ==>
                out.state.spies[a] == SpySettings(WeightBy(calls + [call], a), CheckpointBy(calls + [call], a))
    {
      SpyAgrees(given, admin, calls, t, call, now, a);
    }
    hide Handle, KnownBy, WeightBy, CheckpointBy;
  }

  lemma {:induction false} RunAgrees(admin: Address, given: seq<ScheduleUnit>, start: nat, calls: seq<Call>)
    requires Chronological(start, calls) && Run(Init(admin, given), calls).Ok?
    ensures var t := Run(Init(admin, given), calls).value;
      Agrees(given, admin, calls, t) && Valid(t, Now(start, calls)) && t.totalWeight > 0
  {
    hide Agrees, Handle, Valid, Chronological;
    InitIsFresh(admin, given);
    BooksAlwaysKept(Init(admin, given), start, calls);
    if calls == [] {
      InitAgrees(admin, given);
    } else {
      var before := calls[..|calls| - 1];
      ChronologicalPrefix(start, calls);
      RunAgrees(admin, given, start, before);
      assert before + [calls[|calls| - 1]] == calls;
      CallAgrees(given, admin, before, Run(Init(admin, given), before).value, calls[|calls| - 1], Now(start, before));
    }
  }

  lemma InitAgrees(admin: Address, given: seq<ScheduleUnit>)
    ensures Agrees(given, admin, [], Init(admin, given))
  {
  }

  /** In every reachable state the stored schedule is the one given last, in the order of its ends:
      it has exactly that schedule's units, those of equal end in the given order, and every block
      emits the given rate. */
  lemma ScheduleFromCalls(admin: Address, given: seq<ScheduleUnit>, start: nat, calls: seq<Call>, block: nat, to: nat)
    requires Chronological(start, calls) && Run(Init(admin, given), calls).Ok?
    ensures var stored := Run(Init(admin, given), calls).value.schedule;
      var last := ScheduleBy(given, calls);
      && Sorted(stored) && multiset(stored) == multiset(last) && EndingAt(stored, block) == EndingAt(last, block)
      && RateAt(stored, block) == GivenRate(last, block)
      && Emission(stored, block, to) == GivenEmission(last, block, to)
  {
    hide Handle;
    RunAgrees(admin, given, start, calls);
    SortIsStable(ScheduleBy(given, calls), block);
    RateAsGiven(ScheduleBy(given, calls), block);
    EmissionAsGiven(ScheduleBy(given, calls), block, to);
  }

  lemma TotalAgrees(given: seq<ScheduleUnit>, admin: Address, calls: seq<Call>, t: State, now: nat)
    requires Agrees(given, admin, calls, t) && Valid(t, now)
    ensures t.totalWeight == TotalBy(calls)
  {
    SumAgree(t.spies.Keys, WeightAt(t.spies), WeightsBy(calls));
  }

  /** In every reachable state each spy that was ever listed, and nobody else, has the weight and
      the checkpoint that the calls gave it, and the total is one more than those weights. */
  lemma BooksFromCalls(admin: Address, given: seq<ScheduleUnit>, start: nat, calls: seq<Call>)
    requires Chronological(start, calls) && Run(Init(admin, given), calls).Ok?
    ensures var t := Run(Init(admin, given), calls).value;
      && t.admin == admin && t.totalWeight == TotalBy(calls)
      && t.spies.Keys == KnownBy(calls)
      && forall a | a in t.spies :: t.spies[a] == SpySettings(WeightBy(calls, a), CheckpointBy(calls, a))
  {
    hide Handle;
    RunAgrees(admin, given, start, calls);
    TotalAgrees(given, admin, calls, Run(Init(admin, given), calls).value, Now(start, calls));
  }

  lemma DueAgrees(given: seq<ScheduleUnit>, admin: Address, calls: seq<Call>, t: State, call: Call, now: nat, a: Address)
    requires Agrees(given, admin, calls, t) && Valid(t, now) && now <= call.height && t.totalWeight == TotalBy(calls) > 0
    ensures (if Touches(call, a) then Due(t, call.height, a) else 0) == DueTo(given, calls, call, a)
  {
    hide TotalBy, Sorted, TotalSpyWeight, SortSchedule;
    EmissionAsGiven(ScheduleBy(given, calls), CheckpointBy(calls, a), call.height);
    UnknownHasNothing(calls, a);
    if a in t.spies && t.spies[a].lastUpdateBlock == call.height {
      assert GivenEmission(ScheduleBy(given, calls), call.height, call.height) == 0;
    }
    if WeightBy(calls, a) == 0 {
      assert GivenEmission(ScheduleBy(given, calls), CheckpointBy(calls, a), call.height) * WeightBy(calls, a) == 0;
    }
  }

  /** What a committed call mints for each spy and tells it is what the calls before it say is due:
      at the rates of the schedule given last, for the blocks since the spy's checkpoint. */
  lemma GrantsFromCalls(admin: Address, given: seq<ScheduleUnit>, start: nat, calls: seq<Call>, call: Call, a: Address)
    requires Chronological(start, calls) && Run(Init(admin, given), calls).Ok? && Now(start, calls) <= call.height
    requires Handle(Run(Init(admin, given), calls).value, call).Ok?
    ensures var ms := Handle(Run(Init(admin, given), calls).value, call).value.messages;
      MintedTo(ms, a) == NotifiedTo(ms, a) == DueTo(given, calls, call, a)
  {
    hide Handle, Agrees, Valid, MintedTo, NotifiedTo, DueTo, Due, TotalBy;
    var t := Run(Init(admin, given), calls).value;
    RunAgrees(admin, given, start, calls);
    TotalAgrees(given, admin, calls, t, Now(start, calls));
    CallIsDone(t, call, a);
    DueAgrees(given, admin, calls, t, call, Now(start, calls), a);
  }

  // --- When a call commits ---

  /** A list goes through if every payment it makes fits, and its two counters do. */
  lemma {:induction false} ListCommitsIff(s: State, height: nat, weights: seq<WeightInfo>)
    requires s.totalWeight > 0
    ensures SetAll(s, height, weights).Ok?
            <==> && (forall a | ListWeight(weights, a).Some? :: FitsIn(s, height, a))
                 && Given(weights) < U64_LIMIT && Replaced(s, weights) < U64_LIMIT
  {
    hide FitsIn, SetOne, Stale, WeightAfter;
    if weights != [] {
      var before := weights[..|weights| - 1];
      var info := weights[|weights| - 1];
      ListCommitsIff(s, height, before);
      assert forall a :: ListWeight(weights, a).Some? <==> ListWeight(before, a).Some? || a == info.address;
      if SetAll(s, height, before).Ok? {
        ListGrants(s, height, before, info.address);
        CountersCount(s, height, before);
        EntryCommitsIff(s, height, SetAll(s, height, before).value, info, ListWeight(before, info.address));
        assert ListWeight(before, info.address).Some? ==> FitsIn(s, height, info.address);
      }
    }
  }

  lemma EntryCommitsIff(s: State, height: nat, p: Progress, info: WeightInfo, listed: Option<nat>)
    requires ListDone(s, height, p, info.address, listed)
    ensures SetOne(s, height, p, info).Ok?
            <==> && (listed.Some? || FitsIn(s, height, info.address))
                 && p.newWeights + info.weight < U64_LIMIT
                 && p.oldWeights + SpyOf(p.spies, info.address, height).weight < U64_LIMIT
  {
  }

  /** A payment fits if what was emitted does, also times the weight. */
  ghost predicate Fits(given: seq<ScheduleUnit>, calls: seq<Call>, height: nat, a: Address) {
    WeightBy(calls, a) > 0 && CheckpointBy(calls, a) < height ==>
      var emitted := GivenEmission(ScheduleBy(given, calls), CheckpointBy(calls, a), height);
      emitted < U128_LIMIT && emitted * WeightBy(calls, a) < U128_LIMIT
  }

  lemma FitsAgrees(given: seq<ScheduleUnit>, admin: Address, calls: seq<Call>, t: State, height: nat, a: Address)
    requires Agrees(given, admin, calls, t) && t.totalWeight > 0
    ensures FitsIn(t, height, a) <==> Fits(given, calls, height, a)
  {
    hide SortSchedule;
    EmissionAsGiven(ScheduleBy(given, calls), CheckpointBy(calls, a), height);
    UnknownHasNothing(calls, a);
  }

  function ListOf(call: Call): seq<WeightInfo> {
    match call.request
    case SetWeights(weights) => weights
    case _ => []
  }

  /** Who may make which call, and what must fit. */
  ghost predicate MayCall(admin: Address, given: seq<ScheduleUnit>, calls: seq<Call>, call: Call, replaced: nat) {
    match call.request
    case Update(spy) => Fits(given, calls, call.height, spy)
    case SetSchedule(_) => call.sender == admin
    case SetWeights(weights) =>
      && call.sender == admin
      && (forall a | ListWeight(weights, a).Some? :: Fits(given, calls, call.height, a))
      && Given(weights) < U64_LIMIT && replaced < U64_LIMIT && replaced <= TotalBy(calls)
      && TotalBy(calls) - replaced + Given(weights) < U64_LIMIT
  }

  /** When a call commits, in every reachable state: anybody may update a spy, and only the admin
      may set weights or a schedule; and the integers fit. */
  lemma MasterCommitsIff(admin: Address, given: seq<ScheduleUnit>, start: nat, calls: seq<Call>, call: Call)
    requires Chronological(start, calls) && Run(Init(admin, given), calls).Ok?
    ensures var t := Run(Init(admin, given), calls).value;
      Handle(t, call).Ok? <==> MayCall(admin, given, calls, call, Replaced(t, ListOf(call)))
  {
    hide Agrees, Valid, Fits, FitsIn, SetAll, TotalBy;
    var t := Run(Init(admin, given), calls).value;
    RunAgrees(admin, given, start, calls);
    TotalAgrees(given, admin, calls, t, Now(start, calls));
    AdminAgrees(given, admin, calls, t);
    forall a
      ensures FitsIn(t, call.height, a) <==> Fits(given, calls, call.height, a)
    {
      FitsAgrees(given, admin, calls, t, call.height, a);
    }
    match call.request
    case Update(spy) => UpdateCommitsIff(t, call.height, spy);
    case SetWeights(weights) =>
      ListCommitsIff(t, call.height, weights);
      if SetAll(t, call.height, weights).Ok? {
        CommitsIff(t, call.height, weights);
      }
    case SetSchedule(_) =>
  }

  lemma AdminAgrees(given: seq<ScheduleUnit>, admin: Address, calls: seq<Call>, t: State)
    requires Agrees(given, admin, calls, t)
    ensures t.admin == admin
  {
  }

  lemma UpdateCommitsIff(s: State, height: nat, spy: Address)
    ensures ApplyUpdate(s, height, spy).Ok? <==> FitsIn(s, height, spy)
  {
  }

  // --- The query ---

  /** Some unit of a given list, wherever it stands, has not ended at the block. */
  predicate StillRunning(given: seq<ScheduleUnit>, block: nat) {
    exists unit | unit in given :: block < unit.endBlock
  }

  lemma RunningAsGiven(given: seq<ScheduleUnit>, block: nat)
    ensures Running(SortSchedule(given), block) <==> StillRunning(given, block)
  {
    SortIsStable(given, block);
    var sorted := SortSchedule(given);
    assert forall unit :: unit in multiset(sorted) <==> unit in multiset(given);
    if StillRunning(given, block) {
      var unit :| unit in given && block < unit.endBlock;
      assert unit in multiset(given);
      assert unit in sorted;
    }
    if Running(sorted, block) {
      var i :| 0 <= i < |sorted| && block < sorted[i].endBlock;
      assert sorted[i] in multiset(sorted);
      assert sorted[i] in given;
    }
  }

  ghost function AnswerTo(given: seq<ScheduleUnit>, calls: seq<Call>, a: Address, block: nat): Result<nat>
    requires TotalBy(calls) > 0
  {
    var schedule, since := ScheduleBy(given, calls), CheckpointBy(calls, a);
    var emitted := GivenEmission(schedule, since, block);
    if a !in KnownBy(calls) then Ok(0)
    else if block < since && StillRunning(schedule, since) then Abort(Arithmetic)
    else if emitted >= U128_LIMIT || emitted * WeightBy(calls, a) >= U128_LIMIT then Abort(Arithmetic)
    else Ok(emitted * WeightBy(calls, a) / TotalBy(calls))
  }

  lemma AnswerAgrees(given: seq<ScheduleUnit>, admin: Address, calls: seq<Call>, t: State, a: Address, block: nat)
    requires Agrees(given, admin, calls, t) && t.totalWeight == TotalBy(calls) > 0
    ensures QueryPending(t, a, block) == AnswerTo(given, calls, a, block)
  {
    hide TotalBy, SortSchedule, StillRunning, Running, GivenEmission, KnownBy, CheckpointBy, WeightBy, ScheduleBy;
    EmissionAsGiven(ScheduleBy(given, calls), CheckpointBy(calls, a), block);
    RunningAsGiven(ScheduleBy(given, calls), CheckpointBy(calls, a));
    assert a in t.spies <==> a in KnownBy(calls);
  }

  /** What the query answers for any block, in every reachable state: to a spy that was ever listed
      its weight's share since its checkpoint, with exactly these overflows; to any other nothing. */
  lemma QueryFromCalls(admin: Address, given: seq<ScheduleUnit>, start: nat, calls: seq<Call>, a: Address, block: nat)
    requires Chronological(start, calls) && Run(Init(admin, given), calls).Ok?
    ensures TotalBy(calls) > 0
    ensures QueryPending(Run(Init(admin, given), calls).value, a, block) == AnswerTo(given, calls, a, block)
  {
    hide Agrees, Valid, TotalBy, AnswerTo, QueryPending;
    var t := Run(Init(admin, given), calls).value;
    RunAgrees(admin, given, start, calls);
    TotalAgrees(given, admin, calls, t, Now(start, calls));
    AnswerAgrees(given, admin, calls, t, a, block);
  }
}
