/** The exact account of minting against emission, for any changes of weight: when all that was
    minted stays within what the schedule emitted, and when it does not. */
module EmissionAccount {
  import opened Chain
  import opened Division
  import opened EmissionBound
  import opened Messages
  import opened Schedule
  import opened WeightMaster

  // --- What one call rounds off ---

  /** What the division of one payment leaves over, in units of the total weight. */
  ghost function Leftover(s: State, settings: SpySettings, height: nat): nat {
    if Stale(settings, height) && s.totalWeight > 0
    then Emission(s.schedule, settings.lastUpdateBlock, height) * settings.weight % s.totalWeight
    else 0
  }

  /** The leftovers of a whole list, each entry in the state the entries before it left. */
  ghost function ListLeftover(s: State, height: nat, weights: seq<WeightInfo>): nat
    requires SetAll(s, height, weights).Ok?
  {
    if weights == [] then 0
    else
      var before := weights[..|weights| - 1];
      var info := weights[|weights| - 1];
      ListLeftover(s, height, before)
      + Leftover(s, SpyOf(SetAll(s, height, before).value.spies, info.address, height), height)
  }

  ghost function CallLeftover(s: State, call: Call): nat {
    match call.request
    case Update(spy) => Leftover(s, SpyOf(s.spies, spy, call.height), call.height)
    case SetWeights(weights) => if SetAll(s, call.height, weights).Ok? then ListLeftover(s, call.height, weights) else 0
    case SetSchedule(_) => 0
  }

  /** A payment and its leftover are the spy's backlog. */
  lemma PaymentExact(s: State, spies: map<Address, SpySettings>, a: Address, height: nat, rewards: nat)
    requires forall b | b in spies :: spies[b].lastUpdateBlock <= height
    requires Stale(SpyOf(spies, a, height), height) ==>
               SpyRewards(s.schedule, SpyOf(spies, a, height), height, s.totalWeight) == Ok(rewards)
    requires !Stale(SpyOf(spies, a, height), height) ==> rewards == 0
    ensures rewards * s.totalWeight + Leftover(s, SpyOf(spies, a, height), height)
            == BacklogAt(s.schedule, spies, height)(a)
  {
    var settings := SpyOf(spies, a, height);
    if Stale(settings, height) {
      DivideRemainder(Emission(s.schedule, settings.lastUpdateBlock, height) * settings.weight, s.totalWeight);
    } else if a in spies && settings.weight > 0 {
      assert Emission(s.schedule, height, height) == 0;
    }
  }

  lemma AddPayment(minted: nat, rewards: nat, total: nat, left: nat, backlog: int, one: int, more: nat, whole: int)
    requires minted * total + backlog + left == whole && rewards * total + more == one
    ensures (minted + rewards) * total + (backlog - one) + (left + more) == whole
  {
    Distribute(minted, rewards, total);
  }

  /** One more entry, from whatever the entries before it left. */
  lemma EntryExact(s: State, height: nat, p: Progress, info: WeightInfo, left: nat)
    requires forall a | a in p.spies :: p.spies[a].lastUpdateBlock <= height
    requires SetOne(s, height, p, info).Ok?
    requires Minted(p.messages) * s.totalWeight + Backlog(s.schedule, p.spies, height) + left
             == Backlog(s.schedule, s.spies, height)
    ensures var next := SetOne(s, height, p, info).value;
      Minted(next.messages) * s.totalWeight + Backlog(s.schedule, next.spies, height)
      + (left + Leftover(s, SpyOf(p.spies, info.address, height), height)) == Backlog(s.schedule, s.spies, height)
  {
    hide Minted, Backlog, BacklogAt, SpyRewards, Leftover, TotalSpyWeight;
    PaymentMinted(s, height, p, info);
    PaymentExact(s, p.spies, info.address, height, Payment(s, height, p, info));
    Checkpoint(s.schedule, p.spies, info.address, info.weight, height);
    AddPayment(Minted(p.messages), Payment(s, height, p, info), s.totalWeight, left,
               Backlog(s.schedule, p.spies, height), BacklogAt(s.schedule, p.spies, height)(info.address),
               Leftover(s, SpyOf(p.spies, info.address, height), height), Backlog(s.schedule, s.spies, height));
  }

  lemma {:induction false} ListExact(s: State, height: nat, weights: seq<WeightInfo>)
    requires SetAll(s, height, weights).Ok?
    requires forall a | a in s.spies :: s.spies[a].lastUpdateBlock <= height
    ensures var p := SetAll(s, height, weights).value;
      Minted(p.messages) * s.totalWeight + Backlog(s.schedule, p.spies, height) + ListLeftover(s, height, weights)
      == Backlog(s.schedule, s.spies, height)
  {
    hide Minted, Backlog, Leftover, Consistent, SetOne;
    if weights == [] {
      NothingMinted();
    } else {
      var before := weights[..|weights| - 1];
      ListExact(s, height, before);
      SetAllConsistent(s, height, before);
      ConsistentIsCurrent(s, height, SetAll(s, height, before).value);
      EntryExact(s, height, SetAll(s, height, before).value, weights[|weights| - 1], ListLeftover(s, height, before));
    }
  }

  lemma NothingMinted()
    ensures Minted([]) == 0
  {
  }

  lemma ConsistentIsCurrent(s: State, height: nat, p: Progress)
    requires Consistent(s, height, p)
    ensures forall a | a in p.spies :: p.spies[a].lastUpdateBlock <= height
  {
  }

  lemma UpdateExact(s: State, height: nat, spy: Address)
    requires Valid(s, height) && ApplyUpdate(s, height, spy).Ok?
    ensures var out := ApplyUpdate(s, height, spy).value;
      Minted(out.messages) * s.totalWeight + Backlog(s.schedule, out.state.spies, height)
      + Leftover(s, SpyOf(s.spies, spy, height), height) == Backlog(s.schedule, s.spies, height)
  {
    hide Backlog, BacklogAt, SpyRewards, Leftover;
    if Stale(SpyOf(s.spies, spy, height), height) {
      var rewards := SpyRewards(s.schedule, s.spies[spy], height, s.totalWeight).value;
      MintedPair(spy, rewards);
      PaymentExact(s, s.spies, spy, height, rewards);
      Checkpoint(s.schedule, s.spies, spy, s.spies[spy].weight, height);
    } else {
      var note := [NotifyAllocation(spy, 0)];
      assert note[..0] == [] && Minted(note) == 0;
      NoLeftover(s, SpyOf(s.spies, spy, height), height);
    }
  }

  lemma NoLeftover(s: State, settings: SpySettings, height: nat)
    requires !Stale(settings, height)
    ensures Leftover(s, settings, height) == 0
  {
  }

  /** Every call: what was owed before is minted, still owed, or rounded off. */
  lemma CallExact(s: State, call: Call)
    requires Valid(s, call.height) && Handle(s, call).Ok? && !call.request.SetSchedule?
    ensures var out := Handle(s, call).value;
      && out.state.schedule == s.schedule
      && Minted(out.messages) * s.totalWeight + Backlog(s.schedule, out.state.spies, call.height)
         + CallLeftover(s, call) == Backlog(s.schedule, s.spies, call.height)
  {
    hide Backlog, Minted, Leftover;
    match call.request
    case Update(spy) => UpdateExact(s, call.height, spy);
    case SetWeights(weights) => ListExact(s, call.height, weights);
  }

  // --- The account, in tokens ---

  /** An amount in units of the total weight, in tokens. */
  ghost function Share(amount: int, total: nat): real {
    if total == 0 then 0.0 else amount as real / total as real
  }

  /** What all spies together can claim now. */
  ghost function Claims(s: State, now: nat): real {
    Share(Backlog(s.schedule, s.spies, now), s.totalWeight)
  }

  /** The part of the emission that goes to the reserved unit of weight, and so to nobody. */
  ghost function Reserved(s: State, start: nat, calls: seq<Call>): real
    requires Run(s, calls).Ok?
  {
    if calls == [] then 0.0
    else
      var before := calls[..|calls| - 1];
      var t := Run(s, before).value;
      Reserved(s, start, before)
      + (if Now(start, before) <= calls[|calls| - 1].height
         then Share(Emission(t.schedule, Now(start, before), calls[|calls| - 1].height), t.totalWeight) else 0.0)
  }

  /** What the divisions rounded off. */
  ghost function RoundedOff(s: State, calls: seq<Call>): real
    requires Run(s, calls).Ok?
  {
    if calls == [] then 0.0
    else
      var before := calls[..|calls| - 1];
      var t := Run(s, before).value;
      RoundedOff(s, before) + Share(CallLeftover(t, calls[|calls| - 1]), t.totalWeight)
  }

  /** What changes of the total weight made of the claims that they left unpaid. */
  ghost function Inflation(s: State, calls: seq<Call>): real
    requires Run(s, calls).Ok?
  {
    if calls == [] then 0.0
    else
      var before := calls[..|calls| - 1];
      var call := calls[|calls| - 1];
      var t, after := Run(s, before).value, Run(s, calls).value;
      var left := Backlog(after.schedule, after.spies, call.height);
      Inflation(s, before) + Share(left, after.totalWeight) - Share(left, t.totalWeight)
  }

  /** While blocks pass, claims grow by the emission less the reserved share. */
  lemma ClaimsGrow(s: State, now: nat, later: nat)
    requires Valid(s, now) && now <= later
    ensures Claims(s, later)
            == Claims(s, now) + Emission(s.schedule, now, later) as real
               - Share(Emission(s.schedule, now, later), s.totalWeight)
  {
    TotalIsPositive(s, now);
    BacklogSums(s, now, later);
    hide Backlog, Valid, Emission, TotalSpyWeight;
    var emitted := Emission(s.schedule, now, later);
    GrowingShare(Backlog(s.schedule, s.spies, now), Backlog(s.schedule, s.spies, later), emitted, s.totalWeight);
  }

  lemma GrowingShare(before: int, after: int, emitted: nat, total: nat)
    requires total > 0 && after == before + emitted * (total - 1)
    ensures Share(after, total) == Share(before, total) + emitted as real - Share(emitted, total)
  {
    assert after == before + emitted * total - emitted;
    var t := total as real;
    assert after as real == before as real + emitted as real * t - emitted as real;
    assert emitted as real * t / t == emitted as real;
  }

  lemma SplitShare(minted: nat, left: int, rounded: nat, whole: int, total: nat)
    requires total > 0 && minted * total + left + rounded == whole
    ensures Share(whole, total) == minted as real + Share(left, total) + Share(rounded, total)
  {
    var t := total as real;
    assert whole as real == minted as real * t + left as real + rounded as real;
    assert minted as real * t / t == minted as real;
  }

  ghost predicate Accounted(s: State, start: nat, calls: seq<Call>)
    requires Run(s, calls).Ok?
  {
    var t := Run(s, calls).value;
    && t.schedule == s.schedule
    && TotalMinted(s, calls) as real + Claims(t, Now(start, calls))
       == Emission(s.schedule, start, Now(start, calls)) as real
          - Reserved(s, start, calls) - RoundedOff(s, calls) + Inflation(s, calls)
  }

  lemma AccountStarts(s: State, start: nat)
    requires Fresh(s)
    ensures Accounted(s, start, [])
  {
    assert Emission(s.schedule, start, start) == 0;
    assert Backlog(s.schedule, s.spies, start) == 0;
  }

  lemma AccountStep(s: State, start: nat, calls: seq<Call>)
    requires calls != [] && Run(s, calls).Ok? && Chronological(start, calls) && FixedSchedule(calls)
    requires var before := calls[..|calls| - 1];
      Valid(Run(s, before).value, Now(start, before)) && Accounted(s, start, before)
    ensures Accounted(s, start, calls)
  {
    hide Valid, Handle, Minted, Chronological, FixedSchedule, Backlog, Emission, CallLeftover, Share;
    var before := calls[..|calls| - 1];
    var call := calls[|calls| - 1];
    ChronologicalPrefix(start, calls);
    FixedPrefix(calls);
    var t := Run(s, before).value;
    var out := Handle(t, call).value;
    StaysValid(t, Now(start, before), call.height);
    TotalIsPositive(t, call.height);
    ClaimsGrow(t, Now(start, before), call.height);
    CallExact(t, call);
    SplitShare(Minted(out.messages), Backlog(t.schedule, out.state.spies, call.height), CallLeftover(t, call),
               Backlog(t.schedule, t.spies, call.height), t.totalWeight);
    EmissionSplits(s.schedule, start, Now(start, before), call.height);
  }

  lemma StaysValid(s: State, now: nat, later: nat)
    requires Valid(s, now) && now <= later
    ensures Valid(s, later)
  {
  }

  /** Over any run with a fixed schedule, what was minted and can still be claimed is what was
      emitted, less the reserved share and the rounding, plus the inflation of old claims. */
  lemma {:induction false} MintingAccount(s: State, start: nat, calls: seq<Call>)
    requires Fresh(s) && Chronological(start, calls) && FixedSchedule(calls) && Run(s, calls).Ok?
    ensures var t := Run(s, calls).value;
      && t.schedule == s.schedule
      && TotalMinted(s, calls) as real + Claims(t, Now(start, calls))
         == Emission(s.schedule, start, Now(start, calls)) as real
            - Reserved(s, start, calls) - RoundedOff(s, calls) + Inflation(s, calls)
  {
    hide Valid, Handle, Fresh, Chronological, FixedSchedule, Claims, Emission, Share, Backlog;
    if calls == [] {
      AccountStarts(s, start);
    } else {
      var before := calls[..|calls| - 1];
      ChronologicalPrefix(start, calls);
      FixedPrefix(calls);
      MintingAccount(s, start, before);
      BooksAlwaysKept(s, start, before);
      AccountStep(s, start, calls);
    }
  }

  /** The exact condition: all that was minted is within the emission if and only if the claims
      that changes of weight inflated are within what was reserved, rounded off or not claimed. */
  lemma {:induction false} MintsWithinEmissionIff(s: State, start: nat, calls: seq<Call>)
    requires Fresh(s) && Chronological(start, calls) && FixedSchedule(calls) && Run(s, calls).Ok?
    ensures TotalMinted(s, calls) <= Emission(s.schedule, start, Now(start, calls))
            <==> Inflation(s, calls)
                 <= Reserved(s, start, calls) + RoundedOff(s, calls) + Claims(Run(s, calls).value, Now(start, calls))
  {
    hide Inflation, Reserved, RoundedOff, Claims, TotalMinted, Emission;
    MintingAccount(s, start, calls);
  }
}
