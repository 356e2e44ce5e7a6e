/** The minting schedule: a list of units, each with a rate that ends at a block. */
module Schedule {
  import opened Chain
  import opened Division

  datatype ScheduleUnit = ScheduleUnit(endBlock: nat, mintPerBlock: nat)

  ghost predicate Sorted(schedule: seq<ScheduleUnit>) {
    forall i, j | 0 <= i < j < |schedule| :: schedule[i].endBlock <= schedule[j].endBlock
  }

  /** What one block emits: the rate of the first unit that has not ended. */
  function RateAt(schedule: seq<ScheduleUnit>, block: nat): nat {
    if schedule == [] then 0
    else if block < schedule[0].endBlock then schedule[0].mintPerBlock
    else RateAt(schedule[1..], block)
  }

  /** What the blocks from `from` up to but not including `to` emit, added one by one. */
  function Emission(schedule: seq<ScheduleUnit>, from: nat, to: nat): nat
    decreases to
  {
    if to <= from then 0 else Emission(schedule, from, to - 1) + RateAt(schedule, to - 1)
  }

  lemma {:induction false} EmissionSplits(schedule: seq<ScheduleUnit>, from: nat, mid: nat, to: nat)
    requires from <= mid <= to
    ensures Emission(schedule, from, to) == Emission(schedule, from, mid) + Emission(schedule, mid, to)
  {
    if mid < to {
      EmissionSplits(schedule, from, mid, to - 1);
    }
  }

  lemma {:induction false} ConstantEmission(schedule: seq<ScheduleUnit>, from: nat, to: nat, rate: nat)
    requires from <= to
    requires forall block: nat | from <= block < to :: RateAt(schedule, block) == rate
    ensures Emission(schedule, from, to) == (to - from) * rate
  {
    if from < to {
      ConstantEmission(schedule, from, to - 1, rate);
      assert (to - from) * rate == (to - 1 - from) * rate + rate;
    }
  }

  /** The first unit past the block decides, wherever it stands. */
  lemma {:induction false} RateOfUnit(schedule: seq<ScheduleUnit>, i: nat, block: nat)
    requires i <= |schedule|
    requires forall k | 0 <= k < i :: schedule[k].endBlock <= block
    requires i < |schedule| ==> block < schedule[i].endBlock
    ensures RateAt(schedule, block) == if i < |schedule| then schedule[i].mintPerBlock else 0
  {
    if i > 0 {
      RateOfUnit(schedule[1..], i - 1, block);
    }
  }

  /** A stretch inside one unit, once the units before it have ended. */
  lemma EmissionInUnit(schedule: seq<ScheduleUnit>, i: nat, from: nat, to: nat)
    requires i <= |schedule| && from <= to
    requires forall k | 0 <= k < i :: schedule[k].endBlock <= from
    requires i < |schedule| ==> to <= schedule[i].endBlock
    ensures Emission(schedule, from, to) == (to - from) * (if i < |schedule| then schedule[i].mintPerBlock else 0)
  {
    forall block: nat | from <= block < to
      ensures RateAt(schedule, block) == if i < |schedule| then schedule[i].mintPerBlock else 0
    {
      RateOfUnit(schedule, i, block);
    }
    ConstantEmission(schedule, from, to, if i < |schedule| then schedule[i].mintPerBlock else 0);
  }

  /** Some unit is still running at the block. */
  predicate Running(schedule: seq<ScheduleUnit>, block: nat) {
    exists i | 0 <= i < |schedule| :: block < schedule[i].endBlock
  }

  /** A spy's share of the emission since its last update. Asking for a block before that
      underflows as long as the schedule is running, and is worth nothing afterwards. */
  function ShareOfEmission(
      schedule: seq<ScheduleUnit>, lastUpdate: nat, current: nat, weight: nat, totalWeight: nat): Result<nat>
  {
    var emitted := Emission(schedule, lastUpdate, current);
    if emitted >= U128_LIMIT || (current < lastUpdate && Running(schedule, lastUpdate)) then Abort(Arithmetic)
    else
      var weighted :- Mul128(emitted, weight);
      Div(weighted, totalWeight)
  }

  /** The loop over the schedule computes the block-by-block sum, and aborts exactly when the
      sum or its weighted value does not fit. */
  method GetSpyRewards(current: nat, totalWeight: nat, schedule: seq<ScheduleUnit>, lastUpdateBlock: nat, weight: nat)
      returns (r: Result<nat>)
    requires Sorted(schedule)
    ensures r == ShareOfEmission(schedule, lastUpdateBlock, current, weight, totalWeight)
  {
    var last := lastUpdateBlock;
    var multiplier := 0;
    ghost var upTo := last;
    for i := 0 to |schedule|
      invariant lastUpdateBlock <= last == upTo && (last == lastUpdateBlock || last <= current)
      invariant multiplier == Emission(schedule, lastUpdateBlock, upTo) < U128_LIMIT
      invariant forall k | 0 <= k < i :: schedule[k].endBlock <= last
    {
      var u := schedule[i];
      if last < u.endBlock {
        if current > u.endBlock {
          EmissionInUnit(schedule, i, last, u.endBlock);
          EmissionSplits(schedule, lastUpdateBlock, last, u.endBlock);
          EmissionSplits(schedule, lastUpdateBlock, u.endBlock, current);
          var minted :- Mul128(u.endBlock - last, u.mintPerBlock);
          multiplier :- Add128(multiplier, minted);
          last, upTo := u.endBlock, u.endBlock;
        } else {
          var blocks :- Sub(current, last);
          EmissionInUnit(schedule, i, last, current);
          EmissionSplits(schedule, lastUpdateBlock, last, current);
          var minted :- Mul128(blocks, u.mintPerBlock);
          multiplier :- Add128(multiplier, minted);
          upTo := current;
          break; // No need to go further up the schedule
        }
      }
    }
    if upTo < current {
      EmissionInUnit(schedule, |schedule|, last, current);
      EmissionSplits(schedule, lastUpdateBlock, last, current);
    }
    var weighted :- Mul128(multiplier, weight);
    r := Div(weighted, totalWeight);
  }

  // --- Sorting, as init and set_schedule do before storing ---

  function Insert(unit: ScheduleUnit, sorted: seq<ScheduleUnit>): seq<ScheduleUnit> {
    if sorted == [] || unit.endBlock <= sorted[0].endBlock then [unit] + sorted
    else [sorted[0]] + Insert(unit, sorted[1..])
  }

  function SortSchedule(schedule: seq<ScheduleUnit>): seq<ScheduleUnit> {
    if schedule == [] then [] else Insert(schedule[0], SortSchedule(schedule[1..]))
  }

  /** The units with a given end, in their order. */
  ghost function EndingAt(schedule: seq<ScheduleUnit>, block: nat): seq<ScheduleUnit> {
    if schedule == [] then []
    else (if schedule[0].endBlock == block then [schedule[0]] else []) + EndingAt(schedule[1..], block)
  }

  lemma {:induction false} InsertKeepsUnits(unit: ScheduleUnit, sorted: seq<ScheduleUnit>)
    ensures multiset(Insert(unit, sorted)) == multiset([unit] + sorted)
  {
    if sorted != [] && sorted[0].endBlock < unit.endBlock {
      InsertKeepsUnits(unit, sorted[1..]);
      assert sorted == [sorted[0]] + sorted[1..];
    }
  }

  lemma {:induction false} InsertSorts(unit: ScheduleUnit, sorted: seq<ScheduleUnit>)
    requires Sorted(sorted)
    ensures Sorted(Insert(unit, sorted))
  {
    if sorted != [] && sorted[0].endBlock < unit.endBlock {
      var rest := Insert(unit, sorted[1..]);
      InsertSorts(unit, sorted[1..]);
      InsertKeepsBound(unit, sorted[1..], sorted[0].endBlock);
      assert Insert(unit, sorted) == [sorted[0]] + rest;
    }
  }

  lemma {:induction false} InsertKeepsBound(unit: ScheduleUnit, sorted: seq<ScheduleUnit>, bound: nat)
    requires bound <= unit.endBlock && forall k | 0 <= k < |sorted| :: bound <= sorted[k].endBlock
    ensures forall k | 0 <= k < |Insert(unit, sorted)| :: bound <= Insert(unit, sorted)[k].endBlock
  {
    if sorted != [] && sorted[0].endBlock < unit.endBlock {
      InsertKeepsBound(unit, sorted[1..], bound);
    }
  }

  lemma {:induction false} InsertIsStable(unit: ScheduleUnit, sorted: seq<ScheduleUnit>, block: nat)
    ensures EndingAt(Insert(unit, sorted), block) == EndingAt([unit] + sorted, block)
  {
    assert ([unit] + sorted)[1..] == sorted;
    if sorted != [] && sorted[0].endBlock < unit.endBlock {
      InsertIsStable(unit, sorted[1..], block);
      assert ([unit] + sorted[1..])[1..] == sorted[1..];
      assert Insert(unit, sorted)[1..] == Insert(unit, sorted[1..]);
    }
  }

  /** Sorting is stable: it orders the units by end and keeps units with equal ends in order,
      so the same unit stays the first one of its block. */
  lemma {:induction false} SortIsStable(schedule: seq<ScheduleUnit>, block: nat)
    ensures Sorted(SortSchedule(schedule))
    ensures multiset(SortSchedule(schedule)) == multiset(schedule)
    ensures EndingAt(SortSchedule(schedule), block) == EndingAt(schedule, block)
  {
    if schedule != [] {
      SortIsStable(schedule[1..], block);
      InsertSorts(schedule[0], SortSchedule(schedule[1..]));
      InsertKeepsUnits(schedule[0], SortSchedule(schedule[1..]));
      InsertIsStable(schedule[0], SortSchedule(schedule[1..]), block);
      assert schedule == [schedule[0]] + schedule[1..];
      assert ([schedule[0]] + SortSchedule(schedule[1..]))[1..] == SortSchedule(schedule[1..]);
    }
  }

  // --- Rounding when an emission is minted in pieces ---

  function Granted(emitted: seq<nat>, weight: nat, totalWeight: nat): nat
    requires totalWeight > 0
  {
    if emitted == [] then 0
    else Granted(emitted[..|emitted| - 1], weight, totalWeight) + emitted[|emitted| - 1] * weight / totalWeight
  }

  /** The emissions between the updates at the given blocks. */
  ghost function Pieces(schedule: seq<ScheduleUnit>, blocks: seq<nat>): seq<nat> {
    if |blocks| <= 1 then []
    else Pieces(schedule, blocks[..|blocks| - 1]) + [Emission(schedule, blocks[|blocks| - 2], blocks[|blocks| - 1])]
  }

  lemma {:induction false} SplitQuotient(a: nat, b: nat, totalWeight: nat)
    requires totalWeight > 0
    ensures a / totalWeight + b / totalWeight <= (a + b) / totalWeight <= a / totalWeight + b / totalWeight + 1
  {
    var separate := a / totalWeight + b / totalWeight;
    DivideRemainder(a, totalWeight);
    DivideRemainder(b, totalWeight);
    DivideGalois(a + b, totalWeight, separate);
    DivideGalois(a + b, totalWeight, separate + 2);
  }

  lemma {:induction false} OneMorePiece(first: nat, last: nat, weight: nat, totalWeight: nat)
    requires totalWeight > 0
    ensures var separate := first * weight / totalWeight + last * weight / totalWeight;
      separate <= (first + last) * weight / totalWeight <= separate + 1
  {
    assert (first + last) * weight == first * weight + last * weight;
    SplitQuotient(first * weight, last * weight, totalWeight);
  }

  /** With constant weights, updating at any blocks in between mints at most what one update
      would, and at most one token less per extra update. */
  lemma {:induction false} MintingInPieces(schedule: seq<ScheduleUnit>, blocks: seq<nat>, weight: nat, totalWeight: nat)
    requires totalWeight > 0 && |blocks| >= 2
    requires forall i, j | 0 <= i < j < |blocks| :: blocks[i] <= blocks[j]
    ensures |Pieces(schedule, blocks)| == |blocks| - 1
    ensures var once := Emission(schedule, blocks[0], blocks[|blocks| - 1]) * weight / totalWeight;
      once - (|blocks| - 2) <= Granted(Pieces(schedule, blocks), weight, totalWeight) <= once
  {
    var n := |blocks|;
    var before := blocks[..n - 1];
    var last := Emission(schedule, blocks[n - 2], blocks[n - 1]);
    var pieces := Pieces(schedule, before);
    assert Pieces(schedule, blocks) == pieces + [last];
    assert (pieces + [last])[..|pieces|] == pieces;
    if n > 2 {
      MintingInPieces(schedule, before, weight, totalWeight);
      EmissionSplits(schedule, blocks[0], blocks[n - 2], blocks[n - 1]);
      OneMorePiece(Emission(schedule, blocks[0], blocks[n - 2]), last, weight, totalWeight);
    }
  }
}
