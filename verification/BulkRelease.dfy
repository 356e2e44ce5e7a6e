/** Every bulk is released exactly as promised, however often and whenever allocation is updated. */
module BulkRelease {
  import opened Chain
  import opened Messages
  import opened BulkDistributor
  import opened Division

  // --- The promise, from the calls alone ---

  /** What a bulk has released by a block: its rate for the blocks since it came, up to its term. */
  function ReleasedBy(start: nat, amount: nat, over: nat, block: nat): nat
    requires over > 0
  {
    if block <= start then 0
    else (amount / over) * (if block - start < over then block - start else over)
  }

  ghost predicate AddsBulk(call: Call) {
    call.request.NewBulk? && call.request.distributeOver > 0
  }

  /** Tokens received with the calls. */
  function Received(calls: seq<Call>): nat {
    if calls == [] then 0
    else
      var call := calls[|calls| - 1];
      Received(calls[..|calls| - 1]) + (if call.request.NewBulk? then call.request.amount else 0)
  }

  /** What all the bulks together should have released by a block. */
  function Promised(calls: seq<Call>, block: nat): nat {
    if calls == [] then 0
    else
      var call := calls[|calls| - 1];
      Promised(calls[..|calls| - 1], block)
      + (if call.request.NewBulk? && call.request.distributeOver > 0
         then ReleasedBy(call.height, call.request.amount, call.request.distributeOver, block) else 0)
  }

  /** What dividing the amounts by the terms leaves over, for good. */
  function Leftover(calls: seq<Call>): nat {
    if calls == [] then 0
    else
      var call := calls[|calls| - 1];
      Leftover(calls[..|calls| - 1])
      + (if call.request.NewBulk? && call.request.distributeOver > 0
         then call.request.amount % call.request.distributeOver else 0)
  }

  /** Tokens sent out by a run. */
  ghost function Sent(s: State, calls: seq<Call>): nat
    requires Run(s, calls).Ok?
  {
    if calls == [] then 0
    else
      var before := calls[..|calls| - 1];
      Sent(s, before) + Rewards(Handle(Run(s, before).value, calls[|calls| - 1]).value.messages)
  }

  ghost predicate Chronological(calls: seq<Call>) {
    forall i, j | 0 <= i < j < |calls| :: calls[i].height <= calls[j].height
  }

  function Now(calls: seq<Call>): nat {
    if calls == [] then 0 else calls[|calls| - 1].height
  }

  /** The bulks as if none were ever pruned. */
  function AllBulks(calls: seq<Call>): seq<RewardBulk> {
    if calls == [] then []
    else
      var call := calls[|calls| - 1];
      AllBulks(calls[..|calls| - 1])
      + (if call.request.NewBulk? && call.request.distributeOver > 0
         then [RewardBulk(call.height + call.request.distributeOver, call.request.amount / call.request.distributeOver)]
         else [])
  }

  // --- Pruning ---

  lemma {:induction false} ReleasedConcat(a: seq<RewardBulk>, b: seq<RewardBulk>, from: nat, to: nat)
    ensures Released(a + b, from, to) == Released(a, from, to) + Released(b, from, to)
  {
    if b == [] {
      assert a + b == a;
    } else {
      ReleasedConcat(a, b[..|b| - 1], from, to);
      assert (a + b)[..|a + b| - 1] == a + b[..|b| - 1];
    }
  }

  /** A pruned bulk owes nothing from the last award on. */
  lemma {:induction false} PruningDropsNothing(bulks: seq<RewardBulk>, lastAwarded: nat, from: nat, to: nat)
    requires lastAwarded <= from
    ensures Released(Unfinished(bulks, lastAwarded), from, to) == Released(bulks, from, to)
  {
    if bulks != [] {
      var rest := bulks[..|bulks| - 1];
      var bulk := bulks[|bulks| - 1];
      PruningDropsNothing(rest, lastAwarded, from, to);
      ReleasedConcat(Unfinished(rest, lastAwarded), if bulk.endBlock > lastAwarded then [bulk] else [], from, to);
      assert [bulk][..0] == [];
      assert Released([bulk], from, to) == BlocksLeft(bulk.endBlock, from, to) * bulk.amountPerBlock;
    }
  }

  /** The live list is as good as the full one for every stretch that is still to come. */
  ghost predicate SameFuture(s: State, all: seq<RewardBulk>) {
    forall from: nat, to: nat | s.lastAwardedBlock <= from :: Released(s.bulks, from, to) == Released(all, from, to)
  }

  // --- The promise is kept ---

  lemma OneBulk(start: nat, amount: nat, over: nat, from: nat, to: nat)
    requires over > 0 && start <= from <= to
    ensures ReleasedBy(start, amount, over, to)
            == ReleasedBy(start, amount, over, from) + BlocksLeft(start + over, from, to) * (amount / over)
  {
    var rate := amount / over;
    var until := if to - start < over then to - start else over;
    var done := if from - start < over then from - start else over;
    assert until == done + BlocksLeft(start + over, from, to);
    Distribute(done, BlocksLeft(start + over, from, to), rate);
  }

  lemma {:induction false} PromiseAdvances(calls: seq<Call>, from: nat, to: nat)
    requires Chronological(calls) && Now(calls) <= from <= to
    ensures Promised(calls, to) == Promised(calls, from) + Released(AllBulks(calls), from, to)
  {
    if calls != [] {
      var before := calls[..|calls| - 1];
      var call := calls[|calls| - 1];
      PromiseAdvances(before, from, to);
      if AddsBulk(call) {
        var bulk := RewardBulk(call.height + call.request.distributeOver, call.request.amount / call.request.distributeOver);
        OneBulk(call.height, call.request.amount, call.request.distributeOver, from, to);
        ReleasedConcat(AllBulks(before), [bulk], from, to);
        assert [bulk][..0] == [];
        assert Released([bulk], from, to) == BlocksLeft(bulk.endBlock, from, to) * bulk.amountPerBlock;
      } else {
        assert AllBulks(calls) == AllBulks(before);
      }
    }
  }

  lemma UpdateEffect(s: State, height: nat, all: seq<RewardBulk>)
    requires SameFuture(s, all) && s.lastAwardedBlock <= height && ApplyUpdate(s, height).Ok?
    ensures var out := ApplyUpdate(s, height).value;
      && SameFuture(out.state, all)
      && out.state.lastAwardedBlock == height
      && Rewards(out.messages) == Released(all, s.lastAwardedBlock, height)
  {
    var out := ApplyUpdate(s, height).value;
    if s.lastAwardedBlock < height {
      var rewards := Released(Unfinished(s.bulks, s.lastAwardedBlock), s.lastAwardedBlock, height);
      PruningDropsNothing(s.bulks, s.lastAwardedBlock, s.lastAwardedBlock, height);
      forall from: nat, to: nat | height <= from
        ensures Released(out.state.bulks, from, to) == Released(all, from, to)
      {
        PruningDropsNothing(s.bulks, s.lastAwardedBlock, from, to);
      }
      var transfer := if rewards > 0 then [TransferReward(s.spyToReward, rewards)] else [];
      RewardsConcat(transfer, [NotifyAllocation(s.spyToReward, rewards)], s.spyToReward);
    } else {
      NothingReleased(all, height);
    }
  }

  lemma {:induction false} NothingReleased(bulks: seq<RewardBulk>, block: nat)
    ensures Released(bulks, block, block) == 0
  {
    if bulks != [] {
      NothingReleased(bulks[..|bulks| - 1], block);
    }
  }

  lemma AddEffect(s: State, height: nat, from: Address, amount: nat, over: nat, all: seq<RewardBulk>)
    requires SameFuture(s, all) && s.lastAwardedBlock <= height && AddBulk(s, height, from, amount, over).Ok?
    ensures over > 0
    ensures var out := AddBulk(s, height, from, amount, over).value;
      && SameFuture(out.state, all + [RewardBulk(height + over, amount / over)])
      && out.state.lastAwardedBlock == height
      && Rewards(out.messages) == Released(all, s.lastAwardedBlock, height)
  {
    UpdateEffect(s, height, all);
    var updated := ApplyUpdate(s, height).value.state;
    var bulk := RewardBulk(height + over, amount / over);
    forall start: nat, to: nat | height <= start
      ensures Released(updated.bulks + [bulk], start, to) == Released(all + [bulk], start, to)
    {
      ReleasedConcat(updated.bulks, [bulk], start, to);
      ReleasedConcat(all, [bulk], start, to);
    }
  }

  /** Path independence: what has been sent is what the bulks promised by the last block,
      and what was pruned owes nothing any more. */
  lemma {:induction false} SentAsPromised(admin: Address, spy: Address, calls: seq<Call>)
    requires Chronological(calls) && Run(Init(admin, spy), calls).Ok?
    ensures var s := Init(admin, spy);
      var t := Run(s, calls).value;
      && t.lastAwardedBlock == Now(calls)
      && Sent(s, calls) == Promised(calls, Now(calls))
      && SameFuture(t, AllBulks(calls))
  {
    hide Handle, Promised, AllBulks, Released, SameFuture, Chronological;
    if calls == [] {
      NothingPromised(admin, spy);
    } else {
      var before := calls[..|calls| - 1];
      ChronologicalPrefix(calls);
      SentAsPromised(admin, spy, before);
      CallKeepsPromise(Run(Init(admin, spy), before).value, calls);
    }
  }

  lemma NothingPromised(admin: Address, spy: Address)
    ensures Promised([], 0) == 0 && SameFuture(Init(admin, spy), AllBulks([]))
  {
  }

  lemma ChronologicalPrefix(calls: seq<Call>)
    requires calls != [] && Chronological(calls)
    ensures Chronological(calls[..|calls| - 1])
    ensures Now(calls[..|calls| - 1]) <= calls[|calls| - 1].height == Now(calls)
  {
  }

  /** A call adds its bulk to the full list, and a bulk releases nothing in the block it comes. */
  lemma CallPromises(calls: seq<Call>)
    requires calls != []
    ensures var before, call := calls[..|calls| - 1], calls[|calls| - 1];
      && Promised(calls, call.height) == Promised(before, call.height)
      && AllBulks(calls) == AllBulks(before) + (
           if AddsBulk(call)
           then [RewardBulk(call.height + call.request.distributeOver, call.request.amount / call.request.distributeOver)]
           else [])
  {
  }

  /** The last call of a list sends what was promised since the one before. */
  lemma CallKeepsPromise(t: State, calls: seq<Call>)
    requires calls != [] && Chronological(calls) && Handle(t, calls[|calls| - 1]).Ok?
    requires t.lastAwardedBlock == Now(calls[..|calls| - 1]) && SameFuture(t, AllBulks(calls[..|calls| - 1]))
    ensures var out := Handle(t, calls[|calls| - 1]).value;
      && out.state.lastAwardedBlock == Now(calls)
      && Promised(calls[..|calls| - 1], Now(calls[..|calls| - 1])) + Rewards(out.messages) == Promised(calls, Now(calls))
      && SameFuture(out.state, AllBulks(calls))
  {
    hide ApplyUpdate, AddBulk, Promised, AllBulks, Released, SameFuture, Chronological;
    var before, call := calls[..|calls| - 1], calls[|calls| - 1];
    ChronologicalPrefix(calls);
    PromiseAdvances(before, Now(before), call.height);
    CallPromises(calls);
    match call.request {
      case Update =>
        UpdateEffect(t, call.height, AllBulks(before));
        assert AllBulks(calls) == AllBulks(before);
      case NewBulk(from, amount, over) =>
        AddEffect(t, call.height, from, amount, over, AllBulks(before));
    }
  }

  /** An amount is what is released by a block, what will be released after it, and a leftover
      smaller than the term. */
  lemma OneAmount(start: nat, amount: nat, over: nat, block: nat)
    requires over > 0 && start <= block
    ensures amount == ReleasedBy(start, amount, over, block)
                      + BlocksLeft(start + over, block, start + over) * (amount / over) + amount % over
  {
    OneBulk(start, amount, over, block, if block < start + over then start + over else block);
    DivideRemainder(amount, over);
    if block >= start + over {
      assert ReleasedBy(start, amount, over, block) == (amount / over) * over;
    }
  }

  /** What the bulks will still release after a block, to their very ends. */
  function Outstanding(bulks: seq<RewardBulk>, block: nat): nat {
    if bulks == [] then 0
    else
      var bulk := bulks[|bulks| - 1];
      Outstanding(bulks[..|bulks| - 1], block) + BlocksLeft(bulk.endBlock, block, bulk.endBlock) * bulk.amountPerBlock
  }

  ghost predicate EndBy(bulks: seq<RewardBulk>, horizon: nat) {
    forall i | 0 <= i < |bulks| :: bulks[i].endBlock <= horizon
  }

  lemma {:induction false} OutstandingIsReleased(bulks: seq<RewardBulk>, block: nat, horizon: nat)
    requires EndBy(bulks, horizon)
    ensures Outstanding(bulks, block) == Released(bulks, block, horizon)
  {
    if bulks != [] {
      OutstandingIsReleased(bulks[..|bulks| - 1], block, horizon);
      assert BlocksLeft(bulks[|bulks| - 1].endBlock, block, horizon)
             == BlocksLeft(bulks[|bulks| - 1].endBlock, block, bulks[|bulks| - 1].endBlock);
    }
  }

  /** Any number of bulks all end by some block. */
  lemma {:induction false} HorizonExists(bulks: seq<RewardBulk>) returns (horizon: nat)
    ensures EndBy(bulks, horizon)
  {
    if bulks == [] {
      horizon := 0;
    } else {
      var earlier := HorizonExists(bulks[..|bulks| - 1]);
      var last := bulks[|bulks| - 1].endBlock;
      horizon := if earlier < last then last else earlier;
    }
  }

  /** Pruning leaves what is outstanding unchanged. */
  lemma SameOutstanding(s: State, all: seq<RewardBulk>)
    requires SameFuture(s, all)
    ensures Outstanding(s.bulks, s.lastAwardedBlock) == Outstanding(all, s.lastAwardedBlock)
  {
    var live := HorizonExists(s.bulks);
    var full := HorizonExists(all);
    var horizon := if live < full then full else live;
    OutstandingIsReleased(s.bulks, s.lastAwardedBlock, horizon);
    OutstandingIsReleased(all, s.lastAwardedBlock, horizon);
  }

  lemma {:induction false} AmountsAccountedFor(calls: seq<Call>, block: nat)
    requires Chronological(calls) && Now(calls) <= block
    requires forall call | call in calls :: call.request.NewBulk? ==> call.request.distributeOver > 0
    ensures Received(calls) == Promised(calls, block) + Outstanding(AllBulks(calls), block) + Leftover(calls)
  {
    hide ReleasedBy, BlocksLeft, Chronological;
    if calls != [] {
      var before := calls[..|calls| - 1];
      var call := calls[|calls| - 1];
      assert call in calls;
      ChronologicalPrefix(calls);
      AmountsAccountedFor(before, block);
      if AddsBulk(call) {
        OneAmount(call.height, call.request.amount, call.request.distributeOver, block);
        assert AllBulks(calls)[..|AllBulks(before)|] == AllBulks(before);
      } else {
        assert AllBulks(calls) == AllBulks(before);
      }
    }
  }

  lemma {:induction false} CommittedBulksHaveTerms(s: State, calls: seq<Call>)
    requires Run(s, calls).Ok?
    ensures forall call | call in calls :: call.request.NewBulk? ==> call.request.distributeOver > 0
  {
    if calls != [] {
      CommittedBulksHaveTerms(s, calls[..|calls| - 1]);
    }
  }

  /** Conservation: tokens received are sent, still to be released by a live bulk, or left over
      by a division. */
  lemma {:induction false} Conservation(admin: Address, spy: Address, calls: seq<Call>)
    requires Chronological(calls) && Run(Init(admin, spy), calls).Ok?
    ensures var s := Init(admin, spy);
      var t := Run(s, calls).value;
      Received(calls) == Sent(s, calls) + Outstanding(t.bulks, t.lastAwardedBlock) + Leftover(calls)
  {
    var s := Init(admin, spy);
    var t := Run(s, calls).value;
    SentAsPromised(admin, spy, calls);
    CommittedBulksHaveTerms(s, calls);
    AmountsAccountedFor(calls, Now(calls));
    SameOutstanding(t, AllBulks(calls));
  }

  /** What the query answers for a block is what an update at that block grants. */
  lemma QueryIsWhatUpdateGrants(s: State, height: nat)
    requires s.lastAwardedBlock <= height && QueryPending(s, height).Ok?
    ensures ApplyUpdate(s, height).Ok?
    ensures var out := ApplyUpdate(s, height).value;
      && Rewards(out.messages) == QueryPending(s, height).value
      && out.messages[|out.messages| - 1] == NotifyAllocation(s.spyToReward, QueryPending(s, height).value)
      && QueryPending(out.state, height) == Ok(0)
  {
    PruningDropsNothing(s.bulks, s.lastAwardedBlock, s.lastAwardedBlock, height);
    UpdateEffect(s, height, s.bulks);
    NothingReleased(s.bulks, height);
    NothingReleased(ApplyUpdate(s, height).value.state.bulks, height);
  }

  // --- Which bulks are kept ---

  /** The last block but one in which a call came: a call looks at the bulks once a block. */
  function PrunedAt(calls: seq<Call>): nat {
    if calls == [] then 0
    else
      var before := calls[..|calls| - 1];
      if Now(before) < calls[|calls| - 1].height then Now(before) else PrunedAt(before)
  }

  function EndingAfter(bulks: seq<RewardBulk>, block: nat): seq<RewardBulk> {
    if bulks == [] then []
    else IfEnding(bulks[0], block) + EndingAfter(bulks[1..], block)
  }

  function IfEnding(bulk: RewardBulk, block: nat): seq<RewardBulk> {
    if bulk.endBlock > block then [bulk] else []
  }

  lemma EndingFirst(bulk: RewardBulk, rest: seq<RewardBulk>, block: nat)
    ensures EndingAfter([bulk] + rest, block) == IfEnding(bulk, block) + EndingAfter(rest, block)
  {
    assert ([bulk] + rest)[1..] == rest;
  }

  lemma NoneEnding(block: nat)
    ensures EndingAfter([], block) == []
  {
  }

  lemma Regroup<T>(x: seq<T>, y: seq<T>, z: seq<T>)
    ensures x + (y + z) == x + y + z
  {
  }

  lemma {:induction false} EndingConcat(a: seq<RewardBulk>, b: seq<RewardBulk>, block: nat)
    ensures EndingAfter(a + b, block) == EndingAfter(a, block) + EndingAfter(b, block)
  {
    hide EndingAfter, IfEnding;
    if a == [] {
      NoneEnding(block);
      assert a + b == b;
    } else {
      EndingConcat(a[1..], b, block);
      EndingFirst(a[0], a[1..], block);
      EndingFirst(a[0], a[1..] + b, block);
      assert [a[0]] + a[1..] == a && [a[0]] + (a[1..] + b) == a + b;
      Regroup(IfEnding(a[0], block), EndingAfter(a[1..], block), EndingAfter(b, block));
    }
  }

  lemma {:induction false} UnfinishedAreEnding(bulks: seq<RewardBulk>, block: nat)
    ensures Unfinished(bulks, block) == EndingAfter(bulks, block)
  {
    if bulks != [] {
      var rest := bulks[..|bulks| - 1];
      var last := bulks[|bulks| - 1];
      UnfinishedAreEnding(rest, block);
      EndingConcat(rest, [last], block);
      assert rest + [last] == bulks && [last][1..] == [];
    }
  }

  /** Pruning twice is pruning at the later block. */
  lemma {:induction false} EndingTwice(bulks: seq<RewardBulk>, earlier: nat, later: nat)
    requires earlier <= later
    ensures EndingAfter(EndingAfter(bulks, earlier), later) == EndingAfter(bulks, later)
  {
    if bulks != [] {
      EndingTwice(bulks[1..], earlier, later);
      if bulks[0].endBlock > earlier {
        assert ([bulks[0]] + EndingAfter(bulks[1..], earlier))[1..] == EndingAfter(bulks[1..], earlier);
      } else {
        assert [] + EndingAfter(bulks[1..], earlier) == EndingAfter(bulks[1..], earlier);
      }
    }
  }

  lemma {:induction false} PrunedBefore(calls: seq<Call>)
    requires Chronological(calls)
    ensures PrunedAt(calls) <= Now(calls)
  {
    if calls != [] {
      ChronologicalPrefix(calls);
      PrunedBefore(calls[..|calls| - 1]);
    }
  }

  lemma UpdateKeeps(t: State, height: nat, all: seq<RewardBulk>, pruned: nat)
    requires t.bulks == EndingAfter(all, pruned) && pruned <= t.lastAwardedBlock && ApplyUpdate(t, height).Ok?
    ensures ApplyUpdate(t, height).value.state.bulks
            == EndingAfter(all, if t.lastAwardedBlock < height then t.lastAwardedBlock else pruned)
  {
    UnfinishedAreEnding(t.bulks, t.lastAwardedBlock);
    EndingTwice(all, pruned, t.lastAwardedBlock);
  }

  lemma AddKeeps(t: State, height: nat, from: Address, amount: nat, over: nat, all: seq<RewardBulk>, pruned: nat)
    requires t.bulks == EndingAfter(all, pruned) && pruned <= t.lastAwardedBlock <= height
    requires AddBulk(t, height, from, amount, over).Ok?
    ensures over > 0
    ensures AddBulk(t, height, from, amount, over).value.state.bulks
            == EndingAfter(all + [RewardBulk(height + over, amount / over)],
                           if t.lastAwardedBlock < height then t.lastAwardedBlock else pruned)
  {
    hide ApplyUpdate, EndingAfter;
    UpdateKeeps(t, height, all, pruned);
    var bulk := RewardBulk(height + over, amount / over);
    var block := if t.lastAwardedBlock < height then t.lastAwardedBlock else pruned;
    EndingConcat(all, [bulk], block);
    OneEnding(bulk, block);
  }

  lemma CallKeeps(t: State, calls: seq<Call>)
    requires calls != [] && Chronological(calls) && Handle(t, calls[|calls| - 1]).Ok?
    requires t.lastAwardedBlock == Now(calls[..|calls| - 1])
    requires t.bulks == EndingAfter(AllBulks(calls[..|calls| - 1]), PrunedAt(calls[..|calls| - 1]))
    ensures Handle(t, calls[|calls| - 1]).value.state.bulks == EndingAfter(AllBulks(calls), PrunedAt(calls))
  {
    hide Chronological, Promised, AllBulks, ApplyUpdate, AddBulk, EndingAfter;
    var before, call := calls[..|calls| - 1], calls[|calls| - 1];
    ChronologicalPrefix(calls);
    PrunedBefore(before);
    CallPromises(calls);
    match call.request {
      case Update =>
        UpdateKeeps(t, call.height, AllBulks(before), PrunedAt(before));
        assert AllBulks(calls) == AllBulks(before);
      case NewBulk(from, amount, over) =>
        AddKeeps(t, call.height, from, amount, over, AllBulks(before), PrunedAt(before));
    }
  }

  lemma OneEnding(bulk: RewardBulk, block: nat)
    ensures EndingAfter([bulk], block) == if bulk.endBlock > block then [bulk] else []
  {
    assert [bulk][1..] == [];
  }

  /** In every reachable state the bulks kept are, in order, exactly those that end after the last
      block but one in which a call came. */
  lemma {:induction false} BulksFromCalls(admin: Address, spy: Address, calls: seq<Call>)
    requires Chronological(calls) && Run(Init(admin, spy), calls).Ok?
    ensures Run(Init(admin, spy), calls).value.bulks == EndingAfter(AllBulks(calls), PrunedAt(calls))
  {
    hide Chronological, Released, SameFuture, Promised, Handle;
    if calls != [] {
      var before := calls[..|calls| - 1];
      ChronologicalPrefix(calls);
      BulksFromCalls(admin, spy, before);
      SentAsPromised(admin, spy, before);
      CallKeeps(Run(Init(admin, spy), before).value, calls);
    }
  }

  // --- What each call sends, and when it commits ---

  lemma {:induction false} PartiesStay(admin: Address, spy: Address, calls: seq<Call>)
    requires Run(Init(admin, spy), calls).Ok?
    ensures var t := Run(Init(admin, spy), calls).value; t.admin == admin && t.spyToReward == spy
  {
    hide BulkRewards;
    if calls != [] {
      PartiesStay(admin, spy, calls[..|calls| - 1]);
    }
  }

  /** What the promises of the calls so far release from the last call on. */
  ghost function DueSince(calls: seq<Call>, height: nat): int {
    Promised(calls, height) - Promised(calls, Now(calls))
  }

  /** Who may make which call, and what must fit. */
  ghost predicate MayCall(admin: Address, calls: seq<Call>, call: Call) {
    && DueSince(calls, call.height) < U128_LIMIT
    && match call.request
       case Update => true
       case NewBulk(from, _, over) => from == admin && over > 0 && call.height + over < U64_LIMIT
  }

  lemma UpdateSends(t: State, height: nat, all: seq<RewardBulk>)
    requires SameFuture(t, all) && t.lastAwardedBlock <= height
    ensures var due := Released(all, t.lastAwardedBlock, height);
      && (ApplyUpdate(t, height).Ok? <==> due < U128_LIMIT)
      && (ApplyUpdate(t, height).Ok? ==>
            ApplyUpdate(t, height).value.messages
            == (if due > 0 then [TransferReward(t.spyToReward, due)] else []) + [NotifyAllocation(t.spyToReward, due)])
  {
    PruningDropsNothing(t.bulks, t.lastAwardedBlock, t.lastAwardedBlock, height);
    if t.lastAwardedBlock == height {
      NothingReleased(all, height);
    }
  }

  /** In every reachable state a call commits exactly if it may, and then sends the spy what the
      promises released since the last call, if anything, and always tells it how much. */
  lemma {:induction false} CallSends(admin: Address, spy: Address, calls: seq<Call>, call: Call)
    requires Chronological(calls) && Run(Init(admin, spy), calls).Ok? && Now(calls) <= call.height
    ensures var t := Run(Init(admin, spy), calls).value;
      var due := DueSince(calls, call.height);
      && due >= 0
      && (Handle(t, call).Ok? <==> MayCall(admin, calls, call))
      && (Handle(t, call).Ok? ==>
            Handle(t, call).value.messages
            == (if due > 0 then [TransferReward(spy, due)] else []) + [NotifyAllocation(spy, due)])
  {
    hide Promised, AllBulks, Released, SameFuture, Chronological, ApplyUpdate;
    var t := Run(Init(admin, spy), calls).value;
    SentAsPromised(admin, spy, calls);
    PartiesStay(admin, spy, calls);
    PromiseAdvances(calls, Now(calls), call.height);
    UpdateSends(t, call.height, AllBulks(calls));
  }
}
