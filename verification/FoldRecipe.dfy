/** `Tx.fold`: the transaction that folds one batch, and what running it does to the owner's coins and
    address balance. */
module FoldRecipe {
  import opened Domain
  import opened FoldPlan

  const MAX_GAS_PAYMENT_COINS := 256
  const MAX_MERGE_ARGUMENTS := 511

  datatype CoinArg = GasCoin | Input(id: ObjectId)

  datatype Command =
    | MergeCoins(into: CoinArg, from: seq<ObjectId>)
    | SendFunds(coin: CoinArg, coinType: CoinType, owner: Address)

  datatype RecipeError = NoCoins | TooManyCoins | NotSui

  /** A transaction draft: a gas payment once one is set, and its commands. */
  class Transaction {
    var payment: Option<seq<ObjectId>>
    var commands: seq<Command>

    constructor ()
      ensures payment == None && commands == []
    {
      payment, commands := None, [];
    }
  }

  function Ids(coins: seq<Coin>): seq<ObjectId> {
    if coins == [] then [] else [coins[0].id] + Ids(coins[1..])
  }

  // ----------------------------------------------------------------------------- the coin ledger

  /** The owner's coins of the batch's type, by id, and its address balance of each coin type. */
  datatype Ledger = Ledger(coins: map<ObjectId, nat>, balances: map<CoinType, int>)

  function BalanceOf(balances: map<CoinType, int>, coinType: CoinType): int {
    if coinType in balances then balances[coinType] else 0
  }

  function Credit(balances: map<CoinType, int>, coinType: CoinType, amount: int): map<CoinType, int> {
    balances[coinType := BalanceOf(balances, coinType) + amount]
  }

  /** Takes every listed coin off the ledger, adding up what they held; a coin that is not there, or is
      named twice, fails the transaction. */
  function TakeCoins(ledger: Ledger, ids: seq<ObjectId>): Option<(Ledger, nat)>
    decreases |ids|
  {
    if ids == [] then Some((ledger, 0))
    else if ids[0] !in ledger.coins then None
    else
      match TakeCoins(ledger.(coins := ledger.coins - {ids[0]}), ids[1..])
      case None => None
      case Some((rest, sum)) => Some((rest, ledger.coins[ids[0]] + sum))
  }

  function Resolve(gasCoin: Option<ObjectId>, arg: CoinArg): Option<ObjectId> {
    match arg case GasCoin => gasCoin case Input(id) => Some(id)
  }

  function RunCommand(ledger: Ledger, gasCoin: Option<ObjectId>, command: Command): Option<Ledger> {
    match command
    case MergeCoins(arg, from) =>
      (match (Resolve(gasCoin, arg), TakeCoins(ledger, from))
       case (Some(into), Some((rest, sum))) =>
         if into in rest.coins then Some(rest.(coins := rest.coins[into := rest.coins[into] + sum])) else None
       case _ => None)
    case SendFunds(arg, coinType, _) =>
      match Resolve(gasCoin, arg)
      case None => None
      case Some(id) =>
        if id in ledger.coins
        then Some(Ledger(ledger.coins - {id}, Credit(ledger.balances, coinType, ledger.coins[id])))
        else None
  }

  function RunCommands(ledger: Ledger, gasCoin: Option<ObjectId>, commands: seq<Command>): Option<Ledger>
    decreases |commands|
  {
    if commands == [] then Some(ledger)
    else
      match RunCommand(ledger, gasCoin, commands[0])
      case None => None
      case Some(after) => RunCommands(after, gasCoin, commands[1..])
  }

  /** A gas payment of coins is merged into its first coin before anything runs. */
  function SmashGas(ledger: Ledger, payment: Option<seq<ObjectId>>): Option<(Ledger, Option<ObjectId>)> {
    if payment.None? || payment.value == [] then Some((ledger, None))
    else
      match TakeCoins(ledger, payment.value)
      case None => None
      case Some((rest, sum)) => Some((rest.(coins := rest.coins[payment.value[0] := sum]), Some(payment.value[0])))
  }

  /** The ledger after the transaction, charged `gas` in SUI out of the address balance: that is where the
      gas coin went, and what pays when the payment is empty. Gas the recipe leaves to be chosen is not
      charged here. */
  function RunTransaction(ledger: Ledger, payment: Option<seq<ObjectId>>, commands: seq<Command>, gas: nat)
    : Option<Ledger>
  {
    match SmashGas(ledger, payment)
    case None => None
    case Some((smashed, gasCoin)) =>
      match RunCommands(smashed, gasCoin, commands)
      case None => None
      case Some(after) =>
        Some(if payment.None? then after else after.(balances := Credit(after.balances, SUI, -(gas as int))))
  }

  // ---------------------------------------------------------------------------------- the recipe

  /** The transaction stays within the protocol's limits. */
  predicate WithinLimits(payment: Option<seq<ObjectId>>, commands: seq<Command>) {
    && (payment.Some? ==> |payment.value| <= MAX_GAS_PAYMENT_COINS)
    && (forall k :: 0 <= k < |commands| && commands[k].MergeCoins? ==> |commands[k].from| < MAX_MERGE_ARGUMENTS)
  }

  function RecipeFault(batch: FoldBatch): Option<RecipeError> {
    if batch.coins == [] then Some(NoCoins)
    else if |batch.coins| > MAX_FOLD_COINS then Some(TooManyCoins)
    else if batch.gas == FoldedCoins && batch.coinType != SUI then Some(NotSui)
    else None
  }

  ghost predicate HeldOn(ledger: Ledger, coins: seq<Coin>) {
    && (forall k :: 0 <= k < |coins| ==> coins[k].id in ledger.coins && ledger.coins[coins[k].id] == coins[k].balance)
    && (forall i, j :: 0 <= i < j < |coins| ==> coins[i].id != coins[j].id)
  }

  function IdSet(coins: seq<Coin>): set<ObjectId> {
    set c | c in coins :: c.id
  }

  lemma {:induction false} TakesHeldCoins(ledger: Ledger, coins: seq<Coin>)
    requires HeldOn(ledger, coins)
    ensures TakeCoins(ledger, Ids(coins)) == Some((ledger.(coins := ledger.coins - IdSet(coins)), SumOf(coins)))
    decreases |coins|
  {
    if coins == [] {
      assert IdSet(coins) == {};
      assert ledger.coins - IdSet(coins) == ledger.coins;
    } else {
      var less := ledger.(coins := ledger.coins - {coins[0].id});
      assert Ids(coins)[1..] == Ids(coins[1..]);
      TakesHeldCoins(less, coins[1..]);
      assert coins == [coins[0]] + coins[1..];
      assert IdSet(coins) == {coins[0].id} + IdSet(coins[1..]);
      assert ledger.coins - IdSet(coins) == less.coins - IdSet(coins[1..]);
    }
  }

  lemma {:induction false} IdsSplit(coins: seq<Coin>, k: nat)
    requires k <= |coins|
    ensures |Ids(coins)| == |coins| && Ids(coins)[..k] == Ids(coins[..k]) && Ids(coins)[k..] == Ids(coins[k..])
    ensures SumOf(coins) == SumOf(coins[..k]) + SumOf(coins[k..])
    ensures IdSet(coins) == IdSet(coins[..k]) + IdSet(coins[k..])
  {
    assert coins == coins[..k] + coins[k..];
    if coins != [] {
      IdsSplit(coins[1..], if k > 0 then k - 1 else 0);
      if k > 0 {
        assert coins[..k][1..] == coins[1..][..k - 1];
        assert coins[1..][k - 1..] == coins[k..];
      } else {
        assert coins[..0] == [] && coins[0..] == coins;
      }
    }
  }

  /** What folding a batch is for: its coins are gone, the balance of their type has their whole sum, and
      the SUI balance is less the gas the recipe says it pays. Nothing else has changed. */
  function Folded(ledger: Ledger, batch: FoldBatch, gas: nat): Ledger {
    Ledger(ledger.coins - IdSet(batch.coins),
           var credited := Credit(ledger.balances, batch.coinType, SumOf(batch.coins));
           if batch.gas == Auto then credited else Credit(credited, SUI, -(gas as int)))
  }

  /** Gas is paid in SUI, whatever the batch folds: the deposit is in the batch's own type. */
  lemma GasIsPaidInSui(ledger: Ledger, batch: FoldBatch, gas: nat, coinType: CoinType)
    requires RecipeFault(batch) == None && batch.gas != Auto
    ensures BalanceOf(Folded(ledger, batch, gas).balances, coinType) ==
            BalanceOf(ledger.balances, coinType)
            + (if coinType == batch.coinType then SumOf(batch.coins) else 0)
            - (if coinType == SUI then gas else 0)
  {
  }

  /** The ledger with all of `coins` in the first of them. */
  function Merged(ledger: Ledger, coins: seq<Coin>, upTo: nat): Ledger
    requires 0 < upTo <= |coins|
  {
    Ledger((ledger.coins - IdSet(coins[..upTo]))[coins[0].id := SumOf(coins[..upTo])], ledger.balances)
  }

  lemma RestIsHeld(ledger: Ledger, coins: seq<Coin>, k: nat)
    requires HeldOn(ledger, coins) && 0 < k <= |coins|
    ensures HeldOn(Merged(ledger, coins, k), coins[k..])
  {
    var rest := coins[k..];
    forall i | 0 <= i < |rest|
      ensures rest[i].id in Merged(ledger, coins, k).coins
      ensures Merged(ledger, coins, k).coins[rest[i].id] == rest[i].balance
    {
      assert rest[i] == coins[k + i];
      assert rest[i].id !in IdSet(coins[..k]) && rest[i].id != coins[0].id;
    }
  }

  lemma MergeMergesTheRest(ledger: Ledger, coins: seq<Coin>, k: nat, arg: CoinArg,
                                              gasCoin: Option<ObjectId>)
    requires HeldOn(ledger, coins) && 0 < k <= |coins| && Resolve(gasCoin, arg) == Some(coins[0].id)
    ensures RunCommand(Merged(ledger, coins, k), gasCoin, MergeCoins(arg, Ids(coins[k..]))) ==
            Some(Merged(ledger, coins, |coins|))
  {
    var rest, smashed, merged := coins[k..], Merged(ledger, coins, k), Merged(ledger, coins, |coins|);
    IdsSplit(coins, k);
    assert coins[..|coins|] == coins;
    RestIsHeld(ledger, coins, k);
    TakesHeldCoins(smashed, rest);
    assert coins[0].id !in IdSet(rest);
    assert smashed.balances == merged.balances == ledger.balances;
    assert (smashed.coins - IdSet(rest))[coins[0].id := SumOf(coins)] == merged.coins;
  }

  lemma SendDepositsAll(ledger: Ledger, coins: seq<Coin>, coinType: CoinType, owner: Address,
                                           arg: CoinArg, gasCoin: Option<ObjectId>)
    requires HeldOn(ledger, coins) && coins != [] && Resolve(gasCoin, arg) == Some(coins[0].id)
    ensures RunCommands(Merged(ledger, coins, |coins|), gasCoin, [SendFunds(arg, coinType, owner)]) ==
            Some(Ledger(ledger.coins - IdSet(coins), Credit(ledger.balances, coinType, SumOf(coins))))
  {
    var merged := Merged(ledger, coins, |coins|);
    assert coins[..|coins|] == coins;
    assert coins[0].id in IdSet(coins);
    assert merged.coins - {coins[0].id} == ledger.coins - IdSet(coins);
    assert [SendFunds(arg, coinType, owner)][1..] == [];
  }

  /** The commands of a recipe whose first `k` coins are one coin already. */
  function CommandsAfter(batch: FoldBatch, arg: CoinArg, k: nat): seq<Command>
    requires k <= |batch.coins|
  {
    var send := SendFunds(arg, batch.coinType, batch.owner);
    if k < |batch.coins| then [MergeCoins(arg, Ids(batch.coins[k..])), send] else [send]
  }

  lemma CommandsFold(ledger: Ledger, batch: FoldBatch, k: nat, arg: CoinArg,
                                        gasCoin: Option<ObjectId>)
    requires HeldOn(ledger, batch.coins) && 0 < k <= |batch.coins| && Resolve(gasCoin, arg) == Some(batch.coins[0].id)
    ensures RunCommands(Merged(ledger, batch.coins, k), gasCoin, CommandsAfter(batch, arg, k)) ==
            Some(Ledger(ledger.coins - IdSet(batch.coins),
                        Credit(ledger.balances, batch.coinType, SumOf(batch.coins))))
  {
    SendDepositsAll(ledger, batch.coins, batch.coinType, batch.owner, arg, gasCoin);
    if k < |batch.coins| {
      MergeMergesTheRest(ledger, batch.coins, k, arg, gasCoin);
      assert CommandsAfter(batch, arg, k)[1..] == [SendFunds(arg, batch.coinType, batch.owner)];
    }
  }

  ghost predicate Folds(payment: Option<seq<ObjectId>>, commands: seq<Command>, batch: FoldBatch) {
    forall ledger, gas: nat :: HeldOn(ledger, batch.coins) ==>
      RunTransaction(ledger, payment, commands, gas) == Some(Folded(ledger, batch, gas))
  }

  /** Paying with the first `k` coins, and depositing the gas coin. */
  lemma GasCoinRecipeFolds(batch: FoldBatch, k: nat)
    requires 0 < k <= |batch.coins| && batch.gas != Auto
    ensures Folds(Some(Ids(batch.coins[..k])), CommandsAfter(batch, GasCoin, k), batch)
  {
    var coins := batch.coins;
    forall ledger, gas: nat | HeldOn(ledger, coins)
      ensures RunTransaction(ledger, Some(Ids(coins[..k])), CommandsAfter(batch, GasCoin, k), gas) ==
              Some(Folded(ledger, batch, gas))
    {
      IdsSplit(coins, k);
      assert HeldOn(ledger, coins[..k]);
      TakesHeldCoins(ledger, coins[..k]);
      assert coins[..k][0] == coins[0];
      CommandsFold(ledger, batch, k, GasCoin, Some(coins[0].id));
    }
  }

  /** Merging into the first coin and depositing it, gas paid some other way. */
  lemma InputRecipeFolds(batch: FoldBatch)
    requires batch.coins != [] && batch.gas != FoldedCoins
    ensures Folds(if batch.gas == AddressBalance then Some([]) else None,
                  CommandsAfter(batch, Input(batch.coins[0].id), 1), batch)
  {
    var coins := batch.coins;
    forall ledger, gas: nat | HeldOn(ledger, coins)
      ensures RunTransaction(ledger, if batch.gas == AddressBalance then Some([]) else None,
                             CommandsAfter(batch, Input(coins[0].id), 1), gas) == Some(Folded(ledger, batch, gas))
    {
      assert coins[..1] == [coins[0]] && SumOf([coins[0]]) == coins[0].balance;
      assert IdSet([coins[0]]) == {coins[0].id};
      assert Merged(ledger, coins, 1) == ledger;
      CommandsFold(ledger, batch, 1, Input(coins[0].id), None);
    }
  }

  /** `fold`: fails for an empty batch, one over the limit, or one that cannot pay for itself; otherwise
      the transaction it writes stays within the protocol's limits, deposits with its last command into
      the batch's owner's balance, and on every ledger that has the batch's coins, and for every gas
      charge, folds exactly the batch. */
  method Fold(batch: FoldBatch, tx: Transaction) returns (fault: Option<RecipeError>)
    requires tx.payment == None && tx.commands == []
    modifies tx
    ensures fault == RecipeFault(batch)
    ensures fault.Some? ==> tx.payment == None && tx.commands == []
    ensures fault.None? ==> WithinLimits(tx.payment, tx.commands) && Folds(tx.payment, tx.commands, batch)
    ensures fault.None? ==>
              match batch.gas
              case FoldedCoins =>
                tx.payment.Some? && 0 < |tx.payment.value| && tx.payment.value <= Ids(batch.coins) &&
                (|batch.coins| <= MAX_GAS_PAYMENT_COINS ==> tx.payment.value == Ids(batch.coins))
              case AddressBalance => tx.payment == Some([])
              case Auto => tx.payment == None
    ensures fault.None? ==>
              tx.commands != [] &&
              var last := tx.commands[|tx.commands| - 1];
              last.SendFunds? && last.coinType == batch.coinType && last.owner == batch.owner
  {
    if |batch.coins| == 0 {
      return Some(NoCoins);
    }
    if |batch.coins| > MAX_FOLD_COINS {
      return Some(TooManyCoins);
    }
    var refs := Ids(batch.coins);
    if batch.gas == FoldedCoins {
      if batch.coinType != SUI {
        return Some(NotSui);
      }
      var k := if |batch.coins| < MAX_GAS_PAYMENT_COINS then |batch.coins| else MAX_GAS_PAYMENT_COINS;
      IdsSplit(batch.coins, k);
      tx.payment := Some(refs[..k]);
      if |refs[k..]| > 0 {
        tx.commands := [MergeCoins(GasCoin, refs[k..])];
      }
      tx.commands := tx.commands + [SendFunds(GasCoin, batch.coinType, batch.owner)];
      assert tx.commands == CommandsAfter(batch, GasCoin, k);
      GasCoinRecipeFolds(batch, k);
      return None;
    }
    if batch.gas == AddressBalance {
      tx.payment := Some([]);
    }
    IdsSplit(batch.coins, 1);
    if |refs[1..]| > 0 {
      tx.commands := [MergeCoins(Input(refs[0]), refs[1..])];
    }
    tx.commands := tx.commands + [SendFunds(Input(refs[0]), batch.coinType, batch.owner)];
    assert tx.commands == CommandsAfter(batch, Input(batch.coins[0].id), 1);
    InputRecipeFolds(batch);
    return None;
  }
}

