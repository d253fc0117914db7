/** `Tx.planFold`: the transactions that fold an owner's coins into its address balance, in the order
    they must run, each paid for by a balance the earlier ones leave. */
module FoldPlan {
  import opened Domain
  import opened Lists

  /** Coin types are names; SUI is the one gas is paid in. */
  type CoinType = nat
  const SUI: CoinType := 0

  datatype Coin = Coin(id: ObjectId, balance: nat)

  datatype FoldGas = FoldedCoins | AddressBalance | Auto

  datatype FoldBatch = FoldBatch(owner: Address, coinType: CoinType, coins: seq<Coin>, amount: nat, gas: FoldGas)

  datatype Plan = Plan(owner: Address, batches: seq<FoldBatch>, skipped: seq<Coin>)

  const MAX_FOLD_COINS := 500

  /** Values outside 1 to 500 are clamped; 500 when none is given. */
  function PerTransaction(requested: Option<int>): nat {
    match requested
    case None => MAX_FOLD_COINS
    case Some(n) => if n < 1 then 1 else if n > MAX_FOLD_COINS then MAX_FOLD_COINS else n
  }

  /** The clamp is what the caller asked for, within 1 and 500, and 500 when it asked for nothing. */
  lemma ClampIsAsRequested(requested: Option<int>)
    ensures requested == None ==> PerTransaction(requested) == 500
    ensures requested.Some? ==>
              && 1 <= PerTransaction(requested) <= 500
              && (1 <= requested.value <= 500 ==> PerTransaction(requested) == requested.value)
              && (requested.value < PerTransaction(requested) ==> PerTransaction(requested) == 1)
              && (requested.value > PerTransaction(requested) ==> PerTransaction(requested) == 500)
  {
  }

  function SumOf(coins: seq<Coin>): nat {
    if coins == [] then 0 else coins[0].balance + SumOf(coins[1..])
  }

  /** The gas budget the planner estimates for folding this many coins. */
  function Estimate(gasPrice: nat, coins: nat): nat {
    gasPrice * (10000 + 1000 * coins)
  }

  // ------------------------------------------------------------------------ largest coins first

  /** The estimate starts at ten thousand units of gas and grows by a thousand with each coin. */
  lemma EstimateGrowsByTheCoin(gasPrice: nat, coins: nat)
    ensures Estimate(gasPrice, 0) == 10_000 * gasPrice
    ensures Estimate(gasPrice, coins + 1) - Estimate(gasPrice, coins) == 1_000 * gasPrice
  {
  }

  predicate LargestFirst(coins: seq<Coin>) {
    forall i, j :: 0 <= i < j < |coins| ==> coins[i].balance >= coins[j].balance
  }

  function Smallness(coin: Coin): int {
    0 - coin.balance
  }

  function Sorted(coins: seq<Coin>): seq<Coin> {
    SortBy(coins, Smallness)
  }

  lemma SortedIsSorted(coins: seq<Coin>)
    ensures LargestFirst(Sorted(coins)) && multiset(Sorted(coins)) == multiset(coins)
  {
    SortByOrders(coins, Smallness);
    forall i, j | 0 <= i < j < |coins| ensures Sorted(coins)[i].balance >= Sorted(coins)[j].balance {
      assert Smallness(Sorted(coins)[i]) <= Smallness(Sorted(coins)[j]);
    }
  }

  // ------------------------------------------------------------------------------------- chunks

  function ChunksFrom(items: seq<Coin>, size: nat, index: nat): seq<seq<Coin>>
    requires size > 0
  {
    if index < |items| then Chunks(items[index..], size) else []
  }

  lemma ChunksFromStep(items: seq<Coin>, size: nat, index: nat, end: nat)
    requires size > 0 && index < |items| && end == if index + size < |items| then index + size else |items|
    ensures ChunksFrom(items, size, index) == [items[index..end]] + ChunksFrom(items, size, index + size)
  {
    var rest := items[index..];
    if index + size < |items| {
      assert rest[..size] == items[index..end] && rest[size..] == items[index + size..];
    } else {
      assert rest == items[index..end];
    }
  }

  /** `chunk`: an index that moves `size` at a time, possibly past the end. */
  method Chunk(items: seq<Coin>, size: nat) returns (chunks: seq<seq<Coin>>)
    requires size > 0
    ensures chunks == Chunks(items, size)
  {
    chunks := [];
    var index := 0;
    assert items[0..] == items;
    while index < |items|
      invariant Chunks(items, size) == chunks + ChunksFrom(items, size, index)
      decreases |items| - index
    {
      var end := if index + size < |items| then index + size else |items|;
      ChunksFromStep(items, size, index, end);
      Associates(chunks, [items[index..end]], ChunksFrom(items, size, index + size));
      chunks := chunks + [items[index..end]];
      index := index + size;
    }
  }

  lemma {:induction false} SumIsMonotone(a: seq<Coin>, b: seq<Coin>)
    requires |a| == |b| && forall k :: 0 <= k < |a| ==> a[k].balance >= b[k].balance
    ensures SumOf(a) >= SumOf(b)
  {
    if a != [] {
      SumIsMonotone(a[1..], b[1..]);
    }
  }

  /** Sums of full groups never increase along coins sorted largest first. */
  lemma {:induction false} FullGroupSumsDescend(items: seq<Coin>, size: nat, i: nat, j: nat)
    requires size > 0 && LargestFirst(items) && i < j < |Chunks(items, size)|
    requires |Chunks(items, size)[i]| == |Chunks(items, size)[j]| == size
    ensures SumOf(Chunks(items, size)[i]) >= SumOf(Chunks(items, size)[j])
    decreases |items|
  {
    var rest := items[size..];
    if i > 0 {
      FullGroupSumsDescend(rest, size, i - 1, j - 1);
    } else {
      ChunksPartition(rest, size);
      var group := Chunks(rest, size)[j - 1];
      forall k | 0 <= k < size ensures items[k].balance >= group[k].balance {
        assert group[k] in rest;
      }
      SumIsMonotone(items[..size], group);
    }
  }

  // --------------------------------------------------------------------------- the greedy choice

  datatype Group = Group(coinType: CoinType, coins: seq<Coin>)

  datatype Verdict = Fold(gas: FoldGas) | Skip

  /** How one group is folded, given the address balance projected so far. */
  function Decide(gasPrice: nat, projected: int, group: Group): Verdict {
    var estimate := Estimate(gasPrice, |group.coins|);
    if group.coinType != SUI then Fold(Auto)
    else if SumOf(group.coins) >= estimate then Fold(FoldedCoins)
    else if projected >= estimate then Fold(AddressBalance)
    else Skip
  }

  function Project(gasPrice: nat, projected: int, group: Group): int {
    var verdict := Decide(gasPrice, projected, group);
    if verdict == Skip || verdict == Fold(Auto) then projected
    else projected + SumOf(group.coins) - Estimate(gasPrice, |group.coins|)
  }

  function PlanGroups(owner: Address, gasPrice: nat, projected: int, groups: seq<Group>): (plan: Plan)
    ensures plan.owner == owner
    decreases |groups|
  {
    if groups == [] then Plan(owner, [], [])
    else
      var group := groups[0];
      var rest := PlanGroups(owner, gasPrice, Project(gasPrice, projected, group), groups[1..]);
      match Decide(gasPrice, projected, group)
      case Skip => rest.(skipped := group.coins + rest.skipped)
      case Fold(gas) =>
        rest.(batches := [FoldBatch(owner, group.coinType, group.coins, SumOf(group.coins), gas)] + rest.batches)
  }

  function Verdicts(gasPrice: nat, projected: int, groups: seq<Group>): seq<Verdict>
    decreases |groups|
  {
    if groups == [] then []
    else
      [Decide(gasPrice, projected, groups[0])] +
      Verdicts(gasPrice, Project(gasPrice, projected, groups[0]), groups[1..])
  }

  function CoinsOf(held: map<CoinType, seq<Coin>>, coinType: CoinType): seq<Coin> {
    if coinType in held then held[coinType] else []
  }

  function OfType(coinType: CoinType, chunks: seq<seq<Coin>>): seq<Group> {
    if chunks == [] then [] else [Group(coinType, chunks[0])] + OfType(coinType, chunks[1..])
  }

  /** Every group of every coin type, in the order the planner meets them. */
  function GroupsOf(types: seq<CoinType>, held: map<CoinType, seq<Coin>>, size: nat): seq<Group>
    requires size > 0
  {
    if types == [] then []
    else OfType(types[0], Chunks(Sorted(CoinsOf(held, types[0])), size)) + GroupsOf(types[1..], held, size)
  }

  function OnlySui(types: seq<CoinType>): seq<CoinType> {
    if types == [] then [] else (if types[0] == SUI then [SUI] else []) + OnlySui(types[1..])
  }

  function NotSui(types: seq<CoinType>): seq<CoinType> {
    if types == [] then [] else (if types[0] != SUI then [types[0]] else []) + NotSui(types[1..])
  }

  lemma GroupsOfNext(types: seq<CoinType>, held: map<CoinType, seq<Coin>>, size: nat, t: nat)
    requires size > 0 && t < |types|
    ensures GroupsOf(types[t..], held, size) ==
            OfType(types[t], Chunks(Sorted(CoinsOf(held, types[t])), size)) + GroupsOf(types[t + 1..], held, size)
  {
    assert types[t..][0] == types[t] && types[t..][1..] == types[t + 1..];
  }

  /** `planFold`, from the coin types to fold, the coins of each, the gas price and the address
      balance the node reported. */
  method PlanFold(owner: Address, types: seq<CoinType>, held: map<CoinType, seq<Coin>>, requested: Option<int>,
                  gasPrice: nat, addressBalance: nat) returns (plan: Plan)
    ensures plan == PlanGroups(owner, gasPrice, addressBalance,
                               GroupsOf(OnlySui(types) + NotSui(types), held, PerTransaction(requested)))
  {
    plan := PlanTypes(owner, OnlySui(types) + NotSui(types), held, PerTransaction(requested), gasPrice, addressBalance);
  }

  /** The outer loop, over the coin types in the order they are planned. */
  method PlanTypes(owner: Address, ordered: seq<CoinType>, held: map<CoinType, seq<Coin>>, size: nat,
                   gasPrice: nat, addressBalance: nat) returns (plan: Plan)
    requires size > 0
    ensures plan == PlanGroups(owner, gasPrice, addressBalance, GroupsOf(ordered, held, size))
  {
    var projected: int := addressBalance;
    plan := Plan(owner, [], []);
    ghost var whole := PlanGroups(owner, gasPrice, addressBalance, GroupsOf(ordered, held, size));
    ghost var left := GroupsOf(ordered, held, size);
    ThenNothing(plan, whole);
    assert ordered[0..] == ordered;
    var t := 0;
    while t < |ordered|
      invariant t <= |ordered| && plan.owner == owner
      invariant left == GroupsOf(ordered[t..], held, size)
      invariant whole == Then(plan, PlanGroups(owner, gasPrice, projected, left))
    {
      var chunks := Chunk(Sorted(CoinsOf(held, ordered[t])), size);
      GroupsOfNext(ordered, held, size, t);
      left := GroupsOf(ordered[t + 1..], held, size);
      plan, projected := PlanChunks(plan, ordered[t], chunks, gasPrice, projected, left);
      t := t + 1;
    }
    ThenNothing(plan, PlanGroups(owner, gasPrice, projected, left));
  }

  lemma ThenNothing(plan: Plan, other: Plan)
    ensures plan.batches == [] && plan.skipped == [] && plan.owner == other.owner ==> Then(plan, other) == other
    ensures other.batches == [] && other.skipped == [] ==> Then(plan, other) == plan
  {
  }

  /** What is planned already, followed by the rest. */
  ghost function Then(plan: Plan, rest: Plan): Plan {
    Plan(plan.owner, plan.batches + rest.batches, plan.skipped + rest.skipped)
  }

  /** The plan with one more group decided. */
  ghost function Decided(plan: Plan, gasPrice: nat, projected: int, group: Group): Plan {
    match Decide(gasPrice, projected, group)
    case Skip => plan.(skipped := plan.skipped + group.coins)
    case Fold(gas) =>
      plan.(batches := plan.batches + [FoldBatch(plan.owner, group.coinType, group.coins, SumOf(group.coins), gas)])
  }

  lemma DecideNext(plan: Plan, gasPrice: nat, projected: int, groups: seq<Group>)
    requires groups != []
    ensures Then(plan, PlanGroups(plan.owner, gasPrice, projected, groups)) ==
            Then(Decided(plan, gasPrice, projected, groups[0]),
                 PlanGroups(plan.owner, gasPrice, Project(gasPrice, projected, groups[0]), groups[1..]))
  {
    var group := groups[0];
    var rest := PlanGroups(plan.owner, gasPrice, Project(gasPrice, projected, group), groups[1..]);
    match Decide(gasPrice, projected, group)
    case Skip =>
      Associates(plan.skipped, group.coins, rest.skipped);
    case Fold(gas) =>
      var batch := FoldBatch(plan.owner, group.coinType, group.coins, SumOf(group.coins), gas);
      Associates(plan.batches, [batch], rest.batches);
  }

  /** The inner loop: every group of one coin type, before the groups of the `later` types. */
  method PlanChunks(before: Plan, coinType: CoinType, chunks: seq<seq<Coin>>, gasPrice: nat, balance: int,
                    ghost later: seq<Group>) returns (plan: Plan, projected: int)
    ensures plan.owner == before.owner
    ensures Then(before, PlanGroups(before.owner, gasPrice, balance, OfType(coinType, chunks) + later)) ==
            Then(plan, PlanGroups(before.owner, gasPrice, projected, later))
  {
    plan, projected := before, balance;
    ghost var whole := Then(before, PlanGroups(before.owner, gasPrice, balance, OfType(coinType, chunks) + later));
    var g := 0;
    assert chunks[0..] == chunks;
    while g < |chunks|
      invariant g <= |chunks| && plan.owner == before.owner
      invariant whole ==
                Then(plan, PlanGroups(before.owner, gasPrice, projected, OfType(coinType, chunks[g..]) + later))
    {
      ghost var todo := OfType(coinType, chunks[g..]) + later;
      assert todo[0] == Group(coinType, chunks[g]) && todo[1..] == OfType(coinType, chunks[g + 1..]) + later;
      DecideNext(plan, gasPrice, projected, todo);
      plan, projected := DecideGroup(plan, coinType, chunks[g], gasPrice, projected);
      g := g + 1;
    }
    assert OfType(coinType, chunks[g..]) + later == later;
  }

  /** The body of the inner loop. */
  method DecideGroup(before: Plan, coinType: CoinType, group: seq<Coin>, gasPrice: nat, balance: int)
    returns (plan: Plan, projected: int)
    ensures plan == Decided(before, gasPrice, balance, Group(coinType, group))
    ensures projected == Project(gasPrice, balance, Group(coinType, group))
  {
    plan, projected := before, balance;
    var amount := SumOf(group);
    var estimate := Estimate(gasPrice, |group|);
    if coinType != SUI {
      plan := plan.(batches := plan.batches + [FoldBatch(plan.owner, coinType, group, amount, Auto)]);
      return;
    }
    if amount >= estimate {
      plan := plan.(batches := plan.batches + [FoldBatch(plan.owner, coinType, group, amount, FoldedCoins)]);
    } else if projected >= estimate {
      plan := plan.(batches := plan.batches + [FoldBatch(plan.owner, coinType, group, amount, AddressBalance)]);
    } else {
      plan := plan.(skipped := plan.skipped + group);
      return;
    }
    projected := projected + amount - estimate;
  }

  // --------------------------------------------------------------------------------- solvency

  /** The address balance before batch `k`, when each batch is charged what `charges` says. Only SUI
      batches move the SUI balance. */
  function BalanceBefore(balance: int, batches: seq<FoldBatch>, charges: seq<nat>, k: nat): int
    requires k <= |batches| == |charges|
    decreases k
  {
    if k == 0 then balance
    else
      var batch := batches[0];
      BalanceBefore(if batch.coinType == SUI then balance + batch.amount - charges[0] else balance,
                    batches[1..], charges[1..], k - 1)
  }

  /** No batch is charged more than the budget estimated for it. */
  predicate ChargedAtMostEstimate(gasPrice: nat, batches: seq<FoldBatch>, charges: seq<nat>) {
    |charges| == |batches| && forall k :: 0 <= k < |batches| ==> charges[k] <= Estimate(gasPrice, |batches[k].coins|)
  }

  /** Batch `k` can pay for itself: out of the coins it folds, or out of the balance before it. */
  predicate Covered(gasPrice: nat, balance: int, batches: seq<FoldBatch>, charges: seq<nat>, k: nat)
    requires k < |batches| == |charges|
  {
    var estimate := Estimate(gasPrice, |batches[k].coins|);
    match batches[k].gas
    case FoldedCoins => batches[k].coinType == SUI && estimate <= batches[k].amount
    case AddressBalance => batches[k].coinType == SUI && estimate <= BalanceBefore(balance, batches, charges, k)
    case Auto => batches[k].coinType != SUI
  }

  function After(balance: int, group: Group, charge: nat): int {
    if group.coinType == SUI then balance + SumOf(group.coins) - charge else balance
  }

  lemma ProjectionStaysBelow(gasPrice: nat, projected: int, balance: int, group: Group, charge: nat)
    requires 0 <= projected <= balance && charge <= Estimate(gasPrice, |group.coins|)
    requires Decide(gasPrice, projected, group) != Skip
    ensures 0 <= Project(gasPrice, projected, group) <= After(balance, group, charge)
  {
  }

  lemma FoldedFirst(owner: Address, gasPrice: nat, projected: int, groups: seq<Group>)
    requires groups != [] && Decide(gasPrice, projected, groups[0]) != Skip
    ensures var batches := PlanGroups(owner, gasPrice, projected, groups).batches;
            var group := groups[0];
            && batches != []
            && batches[0] == FoldBatch(owner, group.coinType, group.coins, SumOf(group.coins),
                                       Decide(gasPrice, projected, group).gas)
            && batches[1..] == PlanGroups(owner, gasPrice, Project(gasPrice, projected, group), groups[1..]).batches
  {
  }

  lemma ChargesOfTheRest(gasPrice: nat, batches: seq<FoldBatch>, charges: seq<nat>)
    requires batches != [] && ChargedAtMostEstimate(gasPrice, batches, charges)
    ensures charges[0] <= Estimate(gasPrice, |batches[0].coins|)
    ensures ChargedAtMostEstimate(gasPrice, batches[1..], charges[1..])
  {
  }

  lemma LaterBatch(gasPrice: nat, balance: int, batches: seq<FoldBatch>, charges: seq<nat>, k: nat)
    requires 0 < k <= |batches| == |charges|
    ensures var after := if batches[0].coinType == SUI then balance + batches[0].amount - charges[0] else balance;
            && BalanceBefore(balance, batches, charges, k) == BalanceBefore(after, batches[1..], charges[1..], k - 1)
            && (k < |batches| ==>
                  Covered(gasPrice, balance, batches, charges, k) ==
                  Covered(gasPrice, after, batches[1..], charges[1..], k - 1))
  {
  }

  /** What the planner projected when it decided batch `k`. */
  function ProjectedBefore(gasPrice: nat, projected: int, groups: seq<Group>, k: nat): int
    decreases |groups|
  {
    if groups == [] then projected
    else
      var next := Project(gasPrice, projected, groups[0]);
      if Decide(gasPrice, projected, groups[0]) == Skip then ProjectedBefore(gasPrice, next, groups[1..], k)
      else if k == 0 then projected
      else ProjectedBefore(gasPrice, next, groups[1..], k - 1)
  }

  /** A plan is solvent: run in order, before each batch the projection is not below zero and the real
      balance is not below the projection, and the batch is covered. */
  lemma {:induction false} PlanIsSolvent(
      owner: Address, gasPrice: nat, projected: int, balance: int, groups: seq<Group>, charges: seq<nat>, k: nat)
    requires 0 <= projected <= balance
    requires ChargedAtMostEstimate(gasPrice, PlanGroups(owner, gasPrice, projected, groups).batches, charges)
    requires k <= |charges|
    ensures var batches := PlanGroups(owner, gasPrice, projected, groups).batches;
            && 0 <= ProjectedBefore(gasPrice, projected, groups, k) <= BalanceBefore(balance, batches, charges, k)
            && (k < |batches| ==> Covered(gasPrice, balance, batches, charges, k))
    decreases |groups|
  {
    if groups != [] {
      var group := groups[0];
      var next := Project(gasPrice, projected, group);
      if Decide(gasPrice, projected, group) == Skip {
        PlanIsSolvent(owner, gasPrice, next, balance, groups[1..], charges, k);
      } else {
        FoldedFirst(owner, gasPrice, projected, groups);
        if k > 0 {
          var batches := PlanGroups(owner, gasPrice, projected, groups).batches;
          var after := After(balance, group, charges[0]);
          ChargesOfTheRest(gasPrice, batches, charges);
          ProjectionStaysBelow(gasPrice, projected, balance, group, charges[0]);
          PlanIsSolvent(owner, gasPrice, next, after, groups[1..], charges[1..], k - 1);
          LaterBatch(gasPrice, balance, batches, charges, k);
        }
      }
    }
  }

  /** The charges are the estimates themselves. */
  predicate ChargedTheEstimate(gasPrice: nat, batches: seq<FoldBatch>, charges: seq<nat>) {
    |charges| == |batches| && forall k :: 0 <= k < |batches| ==> charges[k] == Estimate(gasPrice, |batches[k].coins|)
  }

  /** The projection is exactly the balance there would be if every batch were charged its estimate: each
      deposit is counted, and each fee. */
  lemma {:induction false} ProjectionIsTheEstimatedBalance(
      owner: Address, gasPrice: nat, projected: int, groups: seq<Group>, charges: seq<nat>, k: nat)
    requires ChargedTheEstimate(gasPrice, PlanGroups(owner, gasPrice, projected, groups).batches, charges)
    requires k <= |charges|
    ensures ProjectedBefore(gasPrice, projected, groups, k) ==
            BalanceBefore(projected, PlanGroups(owner, gasPrice, projected, groups).batches, charges, k)
    decreases |groups|
  {
    if groups != [] {
      var group := groups[0];
      var next := Project(gasPrice, projected, group);
      if Decide(gasPrice, projected, group) == Skip {
        ProjectionIsTheEstimatedBalance(owner, gasPrice, next, groups[1..], charges, k);
      } else {
        FoldedFirst(owner, gasPrice, projected, groups);
        if k > 0 {
          var batches := PlanGroups(owner, gasPrice, projected, groups).batches;
          ProjectionIsTheEstimatedBalance(owner, gasPrice, next, groups[1..], charges[1..], k - 1);
          LaterBatch(gasPrice, projected, batches, charges, k);
        }
      }
    }
  }

  // -------------------------------------------------------------------------- the three stretches

  function Rank(verdict: Verdict): nat {
    match verdict
    case Skip => 2
    case Fold(gas) => if gas == AddressBalance then 1 else 0
  }

  predicate Descending(groups: seq<Group>) {
    forall i, j :: 0 <= i < j < |groups| ==> SumOf(groups[i].coins) >= SumOf(groups[j].coins)
  }

  /** SUI groups of one size whose sums descend. */
  predicate FullSui(groups: seq<Group>, size: nat) {
    (forall k :: 0 <= k < |groups| ==> groups[k].coinType == SUI && |groups[k].coins| == size) && Descending(groups)
  }

  /** Once the projection stops paying for itself it only falls, so no later group is decided better. */
  lemma {:induction false} VerdictsNeverImprove(gasPrice: nat, projected: int, groups: seq<Group>, size: nat,
                                                i: nat, j: nat)
    requires FullSui(groups, size) && i <= j < |groups|
    ensures |Verdicts(gasPrice, projected, groups)| == |groups|
    ensures Rank(Verdicts(gasPrice, projected, groups)[i]) <= Rank(Verdicts(gasPrice, projected, groups)[j])
    decreases |groups|
  {
    var next := Project(gasPrice, projected, groups[0]);
    var rest := groups[1..];
    if j > 0 {
      VerdictsNeverImprove(gasPrice, next, rest, size, if i > 0 then i - 1 else j - 1, j - 1);
      if i == 0 {
        VerdictsBoundedBelow(gasPrice, next, rest, size, groups[0], projected, j - 1);
      }
    } else if rest != [] {
      VerdictsNeverImprove(gasPrice, next, rest, size, 0, 0);
    }
  }

  lemma {:induction false} VerdictsBoundedBelow(
      gasPrice: nat, projected: int, groups: seq<Group>, size: nat, first: Group, before: int, j: nat)
    requires FullSui(groups, size) && j < |groups| == |Verdicts(gasPrice, projected, groups)|
    requires first.coinType == SUI && |first.coins| == size
    requires forall k :: 0 <= k < |groups| ==> SumOf(groups[k].coins) <= SumOf(first.coins)
    requires Rank(Decide(gasPrice, before, first)) > 0 ==> projected <= before
    ensures Rank(Decide(gasPrice, before, first)) <= Rank(Verdicts(gasPrice, projected, groups)[j])
    decreases |groups|
  {
    if j > 0 {
      var next := Project(gasPrice, projected, groups[0]);
      assert |Verdicts(gasPrice, next, groups[1..])| == |groups| - 1;
      VerdictsBoundedBelow(gasPrice, next, groups[1..], size, first, before, j - 1);
    }
  }

  /** Among the full-size groups of the owner's SUI coins, largest first, the plan decides folded coins,
      then address balance, then skipped, and never goes back. */
  lemma FullSizeGroupsFallInOrder(coins: seq<Coin>, requested: Option<int>, gasPrice: nat, balance: nat,
                                  n: nat, i: nat, j: nat)
    requires var size := PerTransaction(requested);
             var groups := OfType(SUI, Chunks(Sorted(coins), size));
             && i <= j < n <= |groups| && forall k :: 0 <= k < n ==> |groups[k].coins| == size
    ensures var groups := OfType(SUI, Chunks(Sorted(coins), PerTransaction(requested)))[..n];
            |Verdicts(gasPrice, balance, groups)| == n &&
            Rank(Verdicts(gasPrice, balance, groups)[i]) <= Rank(Verdicts(gasPrice, balance, groups)[j])
  {
    var size := PerTransaction(requested);
    var chunks := Chunks(Sorted(coins), size);
    var groups := OfType(SUI, chunks)[..n];
    SortedIsSorted(coins);
    OfTypeIsPointwise(SUI, chunks);
    forall p, q | 0 <= p < q < n ensures SumOf(groups[p].coins) >= SumOf(groups[q].coins) {
      FullGroupSumsDescend(Sorted(coins), size, p, q);
    }
    VerdictsNeverImprove(gasPrice, balance, groups, size, i, j);
  }

  lemma {:induction false} OfTypeIsPointwise(coinType: CoinType, chunks: seq<seq<Coin>>)
    ensures |OfType(coinType, chunks)| == |chunks|
    ensures forall k :: 0 <= k < |chunks| ==> OfType(coinType, chunks)[k] == Group(coinType, chunks[k])
  {
    if chunks != [] {
      OfTypeIsPointwise(coinType, chunks[1..]);
    }
  }

  // -------------------------------------------------------------------------------- conservation

  function BatchCoins(batches: seq<FoldBatch>): seq<Coin> {
    if batches == [] then [] else batches[0].coins + BatchCoins(batches[1..])
  }

  function GroupCoins(groups: seq<Group>): seq<Coin> {
    if groups == [] then [] else groups[0].coins + GroupCoins(groups[1..])
  }

  function AllCoins(types: seq<CoinType>, held: map<CoinType, seq<Coin>>): seq<Coin> {
    if types == [] then [] else CoinsOf(held, types[0]) + AllCoins(types[1..], held)
  }

  lemma {:induction false} BatchCoinsAppend(batches: seq<FoldBatch>, last: FoldBatch)
    ensures BatchCoins(batches + [last]) == BatchCoins(batches) + last.coins
  {
    if batches == [] {
      assert [last][1..] == [] && BatchCoins([last]) == last.coins + BatchCoins([]);
      assert batches + [last] == [last];
    } else {
      BatchCoinsAppend(batches[1..], last);
      assert (batches + [last])[1..] == batches[1..] + [last];
      Associates(batches[0].coins, BatchCoins(batches[1..]), last.coins);
    }
  }

  /** One decision keeps every coin, and never takes a projection that is not below zero below it; what it
      folds is paid for, by the coins or by the projection, and it skips only what neither could pay for. */
  lemma DecisionIsSound(plan: Plan, gasPrice: nat, projected: int, group: Group)
    ensures var after := Decided(plan, gasPrice, projected, group);
            var estimate := Estimate(gasPrice, |group.coins|);
            && multiset(BatchCoins(after.batches)) + multiset(after.skipped) ==
               multiset(BatchCoins(plan.batches)) + multiset(plan.skipped) + multiset(group.coins)
            && (0 <= projected ==> 0 <= Project(gasPrice, projected, group))
            && (after.batches == plan.batches ==>
                  group.coinType == SUI && SumOf(group.coins) < estimate && projected < estimate)
            && (after.batches != plan.batches ==>
                  var batch := after.batches[|after.batches| - 1];
                  && (batch.gas == FoldedCoins ==> estimate <= batch.amount)
                  && (batch.gas == AddressBalance ==> batch.amount < estimate <= projected))
  {
    match Decide(gasPrice, projected, group)
    case Skip =>
    case Fold(gas) =>
      var batch := FoldBatch(plan.owner, group.coinType, group.coins, SumOf(group.coins), gas);
      BatchCoinsAppend(plan.batches, batch);
      assert |plan.batches + [batch]| == |plan.batches| + 1;
  }

  /** A batch is one of the groups, whole, with its sum and its gas. */
  predicate IsBatchOf(owner: Address, batch: FoldBatch, groups: seq<Group>) {
    && batch.owner == owner && batch.amount == SumOf(batch.coins)
    && (batch.gas == Auto <==> batch.coinType != SUI)
    && Group(batch.coinType, batch.coins) in groups
  }

  lemma {:induction false} PlanKeepsGroups(owner: Address, gasPrice: nat, projected: int, groups: seq<Group>)
    ensures var plan := PlanGroups(owner, gasPrice, projected, groups);
            multiset(BatchCoins(plan.batches)) + multiset(plan.skipped) == multiset(GroupCoins(groups))
    decreases |groups|
  {
    if groups != [] {
      var next := Project(gasPrice, projected, groups[0]);
      PlanKeepsGroups(owner, gasPrice, next, groups[1..]);
      if Decide(gasPrice, projected, groups[0]) != Skip {
        FoldedFirst(owner, gasPrice, projected, groups);
      }
    }
  }

  lemma {:induction false} BatchIsAGroup(owner: Address, gasPrice: nat, projected: int, groups: seq<Group>, k: nat)
    requires k < |PlanGroups(owner, gasPrice, projected, groups).batches|
    ensures IsBatchOf(owner, PlanGroups(owner, gasPrice, projected, groups).batches[k], groups)
    decreases |groups|
  {
    var group := groups[0];
    var next := Project(gasPrice, projected, group);
    if Decide(gasPrice, projected, group) == Skip {
      BatchIsAGroup(owner, gasPrice, next, groups[1..], k);
    } else {
      FoldedFirst(owner, gasPrice, projected, groups);
      if k > 0 {
        BatchIsAGroup(owner, gasPrice, next, groups[1..], k - 1);
      }
    }
  }

  lemma {:induction false} GroupCoinsAppend(a: seq<Group>, b: seq<Group>)
    ensures GroupCoins(a + b) == GroupCoins(a) + GroupCoins(b)
  {
    if a == [] {
      assert a + b == b;
    } else {
      GroupCoinsAppend(a[1..], b);
      assert (a + b)[1..] == a[1..] + b;
      Associates(a[0].coins, GroupCoins(a[1..]), GroupCoins(b));
    }
  }

  lemma {:induction false} OfTypeCoins(coinType: CoinType, chunks: seq<seq<Coin>>)
    ensures GroupCoins(OfType(coinType, chunks)) == Flatten(chunks)
  {
    if chunks != [] {
      OfTypeCoins(coinType, chunks[1..]);
      assert OfType(coinType, chunks)[1..] == OfType(coinType, chunks[1..]);
    }
  }

  lemma {:induction false} GroupsPartition(types: seq<CoinType>, held: map<CoinType, seq<Coin>>, size: nat)
    requires size > 0
    ensures multiset(GroupCoins(GroupsOf(types, held, size))) == multiset(AllCoins(types, held))
    ensures forall g :: g in GroupsOf(types, held, size) ==> g.coinType in types && 0 < |g.coins| <= size
  {
    if types != [] {
      var sorted := Sorted(CoinsOf(held, types[0]));
      var chunks := Chunks(sorted, size);
      var rest := GroupsOf(types[1..], held, size);
      GroupsPartition(types[1..], held, size);
      SortedIsSorted(CoinsOf(held, types[0]));
      ChunksPartition(sorted, size);
      OfTypeCoins(types[0], chunks);
      OfTypeIsPointwise(types[0], chunks);
      GroupCoinsAppend(OfType(types[0], chunks), rest);
      forall g | g in GroupsOf(types, held, size) ensures g.coinType in types && 0 < |g.coins| <= size {
        assert g in OfType(types[0], chunks) || g in rest;
      }
    }
  }

  lemma {:induction false} AllCoinsAppend(a: seq<CoinType>, b: seq<CoinType>, held: map<CoinType, seq<Coin>>)
    ensures AllCoins(a + b, held) == AllCoins(a, held) + AllCoins(b, held)
  {
    if a == [] {
      assert a + b == b;
    } else {
      AllCoinsAppend(a[1..], b, held);
      assert (a + b)[1..] == a[1..] + b;
      Associates(CoinsOf(held, a[0]), AllCoins(a[1..], held), AllCoins(b, held));
    }
  }

  lemma {:induction false} SuiFirstSplitsTypes(types: seq<CoinType>)
    ensures forall t :: t in OnlySui(types) ==> t == SUI
    ensures forall t :: t in NotSui(types) ==> t != SUI
  {
    if types != [] {
      SuiFirstSplitsTypes(types[1..]);
    }
  }

  lemma {:induction false} SuiFirstKeepsCoins(types: seq<CoinType>, held: map<CoinType, seq<Coin>>)
    ensures multiset(AllCoins(OnlySui(types), held)) + multiset(AllCoins(NotSui(types), held)) ==
            multiset(AllCoins(types, held))
  {
    if types != [] {
      var first, rest := types[0], types[1..];
      SuiFirstKeepsCoins(rest, held);
      if first == SUI {
        OneMoreType(first, OnlySui(rest), held);
        assert OnlySui(types) == [first] + OnlySui(rest) && NotSui(types) == NotSui(rest);
      } else {
        OneMoreType(first, NotSui(rest), held);
        assert NotSui(types) == [first] + NotSui(rest) && OnlySui(types) == OnlySui(rest);
      }
    }
  }

  lemma OneMoreType(first: CoinType, rest: seq<CoinType>, held: map<CoinType, seq<Coin>>)
    ensures multiset(AllCoins([first] + rest, held)) == multiset(CoinsOf(held, first)) + multiset(AllCoins(rest, held))
  {
    assert ([first] + rest)[1..] == rest;
  }

  /** Every coin read is in exactly one batch or skipped, as often as it was read, and each batch is
      non-empty, within the clamp, and says what it holds. */
  lemma PlanKeepsEveryCoin(owner: Address, types: seq<CoinType>, held: map<CoinType, seq<Coin>>, requested: Option<int>,
                           gasPrice: nat, addressBalance: nat)
    ensures var size := PerTransaction(requested);
            var groups := GroupsOf(OnlySui(types) + NotSui(types), held, size);
            var plan := PlanGroups(owner, gasPrice, addressBalance, groups);
            && 1 <= size <= MAX_FOLD_COINS
            && multiset(BatchCoins(plan.batches) + plan.skipped) == multiset(AllCoins(types, held))
            && forall k :: 0 <= k < |plan.batches| ==>
                 var batch := plan.batches[k];
                 && 0 < |batch.coins| <= size && batch.owner == owner && batch.amount == SumOf(batch.coins)
                 && (batch.gas == Auto <==> batch.coinType != SUI)
  {
    var size := PerTransaction(requested);
    var types' := OnlySui(types) + NotSui(types);
    GroupsPartition(types', held, size);
    PlanKeepsGroups(owner, gasPrice, addressBalance, GroupsOf(types', held, size));
    AllCoinsAppend(OnlySui(types), NotSui(types), held);
    SuiFirstKeepsCoins(types, held);
    var plan := PlanGroups(owner, gasPrice, addressBalance, GroupsOf(types', held, size));
    forall k | 0 <= k < |plan.batches|
      ensures 0 < |plan.batches[k].coins| <= size && IsBatchOf(owner, plan.batches[k], GroupsOf(types', held, size))
    {
      BatchIsAGroup(owner, gasPrice, addressBalance, GroupsOf(types', held, size), k);
    }
  }

  // ------------------------------------------------------------------------------- SUI goes first

  predicate SuiFirst(groups: seq<Group>) {
    forall i, j :: 0 <= i < j < |groups| && groups[i].coinType != SUI ==> groups[j].coinType != SUI
  }

  lemma {:induction false} TypesOfGroups(types: seq<CoinType>, held: map<CoinType, seq<Coin>>, size: nat)
    requires size > 0
    ensures forall g :: g in GroupsOf(types, held, size) ==> g.coinType in types
  {
    if types != [] {
      TypesOfGroups(types[1..], held, size);
      OfTypeIsPointwise(types[0], Chunks(Sorted(CoinsOf(held, types[0])), size));
    }
  }

  lemma {:induction false} GroupsOfAppend(a: seq<CoinType>, b: seq<CoinType>, held: map<CoinType, seq<Coin>>, size: nat)
    requires size > 0
    ensures GroupsOf(a + b, held, size) == GroupsOf(a, held, size) + GroupsOf(b, held, size)
  {
    if a == [] {
      assert a + b == b;
    } else {
      GroupsOfAppend(a[1..], b, held, size);
      assert (a + b)[1..] == a[1..] + b;
      Associates(OfType(a[0], Chunks(Sorted(CoinsOf(held, a[0])), size)), GroupsOf(a[1..], held, size),
                 GroupsOf(b, held, size));
    }
  }

  /** Every SUI group is planned before any other, so that what SUI deposits is there to pay for the rest. */
  lemma SuiIsPlannedFirst(types: seq<CoinType>, held: map<CoinType, seq<Coin>>, size: nat)
    requires size > 0
    ensures SuiFirst(GroupsOf(OnlySui(types) + NotSui(types), held, size))
  {
    var sui, others := GroupsOf(OnlySui(types), held, size), GroupsOf(NotSui(types), held, size);
    GroupsOfAppend(OnlySui(types), NotSui(types), held, size);
    SuiFirstSplitsTypes(types);
    TypesOfGroups(OnlySui(types), held, size);
    TypesOfGroups(NotSui(types), held, size);
    forall i | 0 <= i < |sui| ensures sui[i].coinType == SUI {
      assert sui[i] in sui;
    }
    forall i | 0 <= i < |others| ensures others[i].coinType != SUI {
      assert others[i] in others;
    }
  }

  /** And so its batches come first in the plan. */
  lemma {:induction false} PlanKeepsSuiFirst(owner: Address, gasPrice: nat, projected: int, groups: seq<Group>,
                                             i: nat, j: nat)
    requires SuiFirst(groups) && i < j < |PlanGroups(owner, gasPrice, projected, groups).batches|
    ensures var batches := PlanGroups(owner, gasPrice, projected, groups).batches;
            batches[i].coinType != SUI ==> batches[j].coinType != SUI
    decreases |groups|
  {
    var next := Project(gasPrice, projected, groups[0]);
    if Decide(gasPrice, projected, groups[0]) == Skip {
      PlanKeepsSuiFirst(owner, gasPrice, next, groups[1..], i, j);
    } else {
      FoldedFirst(owner, gasPrice, projected, groups);
      if i > 0 {
        PlanKeepsSuiFirst(owner, gasPrice, next, groups[1..], i - 1, j - 1);
      } else {
        BatchIsAGroup(owner, gasPrice, next, groups[1..], j - 1);
        var batch := PlanGroups(owner, gasPrice, next, groups[1..]).batches[j - 1];
        assert Group(batch.coinType, batch.coins) in groups[1..];
      }
    }
  }
}
