/** The chain the evidence rules reason about: an append-only log of executed transactions, the
    live objects, and the epochs, checkpoints and clock that advance beside them. */
module Chain {
  import opened Domain

  /** What a transaction did to one object. `input` is the version it took, absent for an object it
      created or unwrapped; an object not `kept` was deleted or wrapped. */
  datatype Change = Change(input: Option<Version>, kept: bool, frozen: bool)

  /** A transaction's effects. Every object it keeps is stamped with `lamport`. */
  datatype Effects = Effects(
    digest: Digest,
    success: bool,
    inputs: map<ObjectId, Version>,
    changed: map<ObjectId, Change>,
    lamport: Version,
    epoch: nat,
    time: nat,
    checkpoint: nat)

  datatype Live = Live(version: Version, previous: Option<Digest>, frozen: bool)

  /** `txs` says which bytes a digest names, `top` the newest version each object ever had, and
      `firstCheckpoint[e]` where epoch `e` began. `skew` bounds how far a validator's clock may lag. */
  datatype State = State(
    txs: map<Digest, Signed>,
    skew: nat,
    log: seq<Effects>,
    live: map<ObjectId, Live>,
    top: map<ObjectId, Version>,
    epoch: nat,
    time: nat,
    checkpoint: nat,
    firstCheckpoint: seq<nat>)

  predicate OnChain(c: State, digest: Digest) {
    exists i :: 0 <= i < |c.log| && c.log[i].digest == digest
  }

  /** The Lamport rule: one more than the newest input. */
  predicate IsLamport(lamport: Version, inputs: map<ObjectId, Version>) {
    && (forall o :: o in inputs ==> inputs[o] < lamport)
    && (lamport == 1 || exists o :: o in inputs && inputs[o] + 1 == lamport)
  }

  predicate InWindow(signed: Signed, skew: nat, epoch: nat, time: nat) {
    var e := signed.expiration;
    && (MinEpochOf(e).Some? ==> MinEpochOf(e).value <= epoch)
    && (MaxEpochOf(e).Some? ==> epoch <= MaxEpochOf(e).value)
    && (MaxTimestampOf(e).Some? ==> time <= MaxTimestampOf(e).value + skew)
  }

  /** Executing takes every pinned object at exactly the pinned version, and consumes each one that is
      not immutable. */
  predicate TakesPin(c: State, fx: Effects, pin: PinnedRef) {
    && pin.objectId in c.live && c.live[pin.objectId].version == pin.version
    && (c.live[pin.objectId].frozen ||
        (pin.objectId in fx.changed && fx.changed[pin.objectId].input == Some(pin.version)))
  }

  predicate CanChange(c: State, fx: Effects, o: ObjectId)
    requires o in fx.changed
  {
    match fx.changed[o].input
    case Some(v) => o in c.live && !c.live[o].frozen && c.live[o].version == v && o in fx.inputs && fx.inputs[o] == v
    case None => o !in c.live && (o in c.top ==> c.top[o] < fx.lamport)
  }

  ghost predicate CanExecute(c: State, fx: Effects) {
    && fx.digest in c.txs && !OnChain(c, fx.digest)
    && fx.epoch == c.epoch && fx.time == c.time && fx.checkpoint == c.checkpoint
    && InWindow(c.txs[fx.digest], c.skew, c.epoch, c.time)
    && IsLamport(fx.lamport, fx.inputs)
    && (forall pin :: pin in c.txs[fx.digest].pinned ==> TakesPin(c, fx, pin))
    && (forall o :: o in fx.changed ==> CanChange(c, fx, o))
  }

  function Execute(c: State, fx: Effects): State {
    c.(log := c.log + [fx],
       live := map o | o in c.live.Keys + fx.changed.Keys && (o in fx.changed ==> fx.changed[o].kept) ::
                 if o in fx.changed then Live(fx.lamport, Some(fx.digest), fx.changed[o].frozen) else c.live[o],
       top := c.top + map o | o in fx.changed :: fx.lamport)
  }

  predicate Checkpointed(c: State, c': State) {
    c.time <= c'.time && c' == c.(time := c'.time, checkpoint := c.checkpoint + 1)
  }

  predicate EpochChanged(c: State, c': State) {
    c.time <= c'.time &&
    c' == c.(epoch := c.epoch + 1, time := c'.time, checkpoint := c.checkpoint + 1,
             firstCheckpoint := c.firstCheckpoint + [c.checkpoint + 1])
  }

  ghost predicate Next(c: State, c': State) {
    || Checkpointed(c, c')
    || EpochChanged(c, c')
    || (exists fx :: CanExecute(c, fx) && c' == Execute(c, fx))
  }

  ghost predicate Genesis(c: State) {
    && c.log == [] && c.epoch == 0 && c.checkpoint == 0 && c.firstCheckpoint == [0]
    && (forall o :: o in c.live ==> o in c.top && c.top[o] == c.live[o].version && c.live[o].previous == None)
    && (forall d :: d in c.txs ==> c.txs[d].digest == d)
  }

  ghost predicate IsRun(run: seq<State>) {
    run != [] && Genesis(run[0]) && forall i :: 0 <= i < |run| - 1 ==> Next(run[i], run[i + 1])
  }

  function Last(run: seq<State>): State
    requires run != []
  {
    run[|run| - 1]
  }

  // ------------------------------------------------------------------ what every state satisfies

  ghost predicate Objects(c: State) {
    forall o :: o in c.live ==>
      && o in c.top && c.top[o] == c.live[o].version
      && (c.live[o].previous.Some? ==> OnChain(c, c.live[o].previous.value))
  }

  predicate Consumes(fx: Effects, o: ObjectId) {
    o in fx.changed && fx.changed[o].input.Some?
  }

  ghost predicate DigestsDistinct(c: State) {
    forall i, j :: 0 <= i < j < |c.log| ==> c.log[i].digest != c.log[j].digest
  }

  /** Whatever was consumed is behind the object's newest version for good. */
  ghost predicate ConsumedIsPast(c: State) {
    forall i, o :: (0 <= i < |c.log| && Consumes(c.log[i], o)) ==>
      o in c.top && c.log[i].changed[o].input.value < c.top[o]
  }

  /** No version of an object is consumed twice. */
  ghost predicate ConsumedOnce(c: State) {
    forall i, j, o :: (0 <= i < j < |c.log| && Consumes(c.log[i], o) && Consumes(c.log[j], o)) ==>
      c.log[i].changed[o].input != c.log[j].changed[o].input
  }

  ghost predicate Exclusive(c: State) {
    DigestsDistinct(c) && ConsumedIsPast(c) && ConsumedOnce(c)
  }

  /** The transaction consumed the pinned version, or the object is immutable at that version. */
  predicate PinTaken(c: State, fx: Effects, pin: PinnedRef) {
    var o := pin.objectId;
    || (o in fx.changed && fx.changed[o].input == Some(pin.version))
    || (o in c.live && c.live[o].frozen && c.live[o].version == pin.version)
  }

  ghost predicate Pins(c: State) {
    forall i :: 0 <= i < |c.log| ==>
      c.log[i].digest in c.txs &&
      forall pin :: pin in c.txs[c.log[i].digest].pinned ==> PinTaken(c, c.log[i], pin)
  }

  /** Everything in the log happened inside its window, in an epoch and checkpoint already reached. */
  ghost predicate Timed(c: State) {
    && |c.firstCheckpoint| == c.epoch + 1
    && (forall e, f :: 0 <= e <= f <= c.epoch ==> c.firstCheckpoint[e] <= c.firstCheckpoint[f] <= c.checkpoint)
    && (forall i :: 0 <= i < |c.log| ==>
          && c.log[i].digest in c.txs
          && c.log[i].epoch <= c.epoch && c.log[i].time <= c.time
          && c.firstCheckpoint[c.log[i].epoch] <= c.log[i].checkpoint <= c.checkpoint
          && InWindow(c.txs[c.log[i].digest], c.skew, c.log[i].epoch, c.log[i].time))
  }

  ghost predicate Ok(c: State) {
    Objects(c) && Exclusive(c) && Pins(c) && Timed(c)
  }

  lemma ExecuteKeepsOk(c: State, fx: Effects)
    requires Ok(c) && CanExecute(c, fx)
    ensures Ok(Execute(c, fx))
  {
    var c' := Execute(c, fx);
    assert forall i :: 0 <= i < |c.log| ==> c'.log[i] == c.log[i];
    assert c'.log[|c.log|] == fx;
    ExecuteKeepsObjects(c, fx);
    ExecuteKeepsExclusive(c, fx);
    forall i | 0 <= i < |c'.log|
      ensures forall pin :: pin in c'.txs[c'.log[i].digest].pinned ==> PinTaken(c', c'.log[i], pin)
    {
      forall pin | pin in c'.txs[c'.log[i].digest].pinned ensures PinTaken(c', c'.log[i], pin) {
        if i < |c.log| {
          assert PinTaken(c, c.log[i], pin);
        } else {
          assert TakesPin(c, fx, pin);
        }
        // An immutable object is changed by nothing.
        assert pin.objectId in fx.changed ==> CanChange(c, fx, pin.objectId);
      }
    }
  }

  lemma ExecuteKeepsObjects(c: State, fx: Effects)
    requires Ok(c) && CanExecute(c, fx)
    ensures Objects(Execute(c, fx))
  {
    var c' := Execute(c, fx);
    assert c'.log[|c.log|] == fx;
    forall o | o in c'.live && c'.live[o].previous.Some? ensures OnChain(c', c'.live[o].previous.value) {
      if o !in fx.changed {
        var i :| 0 <= i < |c.log| && c.log[i].digest == c.live[o].previous.value;
        assert c'.log[i] == c.log[i];
      }
    }
  }

  lemma ExecuteKeepsExclusive(c: State, fx: Effects)
    requires Ok(c) && CanExecute(c, fx)
    ensures Exclusive(Execute(c, fx))
  {
    var c' := Execute(c, fx);
    assert forall i :: 0 <= i < |c.log| ==> c'.log[i] == c.log[i];
    assert c'.log[|c.log|] == fx;
    forall i, o | 0 <= i < |c'.log| && Consumes(c'.log[i], o)
      ensures o in c'.top && c'.log[i].changed[o].input.value < c'.top[o]
    {
      assert o in fx.changed ==> CanChange(c, fx, o);
    }
    ConsumesNewest(c, fx);
  }

  /** What a transaction consumes no earlier one has consumed. */
  lemma ConsumesNewest(c: State, fx: Effects)
    requires Ok(c) && CanExecute(c, fx)
    ensures ConsumedOnce(Execute(c, fx))
  {
    var c' := Execute(c, fx);
    forall i, j, o | 0 <= i < j < |c'.log| && Consumes(c'.log[i], o) && Consumes(c'.log[j], o)
      ensures c'.log[i].changed[o].input != c'.log[j].changed[o].input
    {
      assert c'.log[i] == c.log[i];
      if j < |c.log| {
        assert c'.log[j] == c.log[j];
      } else {
        assert c'.log[j] == fx && CanChange(c, fx, o);
      }
    }
  }

  lemma QuietStepKeepsOk(c: State, c': State)
    requires Ok(c) && (Checkpointed(c, c') || EpochChanged(c, c'))
    ensures Ok(c')
  {
    assert forall d :: OnChain(c, d) ==> OnChain(c', d);
    assert Objects(c') && Exclusive(c');
    forall i, pin | 0 <= i < |c.log| && pin in c.txs[c.log[i].digest].pinned ensures PinTaken(c', c.log[i], pin) {
      assert PinTaken(c, c.log[i], pin);
    }
  }

  lemma NextKeepsOk(c: State, c': State)
    requires Ok(c) && Next(c, c')
    ensures Ok(c')
  {
    if Checkpointed(c, c') || EpochChanged(c, c') {
      QuietStepKeepsOk(c, c');
    } else {
      var fx :| CanExecute(c, fx) && c' == Execute(c, fx);
      ExecuteKeepsOk(c, fx);
    }
  }

  lemma {:induction false} RunIsOk(run: seq<State>, k: nat)
    requires IsRun(run) && k < |run|
    ensures Ok(run[k])
  {
    if k > 0 {
      RunIsOk(run, k - 1);
      NextKeepsOk(run[k - 1], run[k]);
    }
  }

  /** A later state has everything an earlier one had, and what it added happened no earlier. */
  ghost predicate Extends(c: State, later: State) {
    && later.txs == c.txs && later.skew == c.skew
    && c.epoch <= later.epoch && c.time <= later.time && c.checkpoint <= later.checkpoint
    && c.log <= later.log && c.firstCheckpoint <= later.firstCheckpoint
    && (forall o :: o in c.top ==> o in later.top && c.top[o] <= later.top[o])
    && (forall i :: |c.log| <= i < |later.log| ==> c.epoch <= later.log[i].epoch && c.time <= later.log[i].time)
  }

  /** Whatever a transaction keeps is newer than anything the object was before. */
  lemma StepExtends(c: State, c': State)
    requires Ok(c) && Next(c, c')
    ensures Extends(c, c')
  {
    if fx :| CanExecute(c, fx) && c' == Execute(c, fx) {
      forall o | o in c.top && o in fx.changed ensures c.top[o] <= fx.lamport {
        assert CanChange(c, fx, o);
      }
    }
  }

  lemma ExtendsChains(a: State, b: State, c: State)
    requires Extends(a, b) && Extends(b, c)
    ensures Extends(a, c)
  {
  }

  lemma RunStepExtends(run: seq<State>, c: State, k: nat)
    requires IsRun(run) && 0 < k < |run| && Extends(c, run[k - 1])
    ensures Extends(c, run[k])
  {
    RunIsOk(run, k - 1);
    StepExtends(run[k - 1], run[k]);
    ExtendsChains(c, run[k - 1], run[k]);
  }

  lemma {:induction false} RunExtends(run: seq<State>, j: nat, k: nat)
    requires IsRun(run) && j <= k < |run|
    ensures Extends(run[j], run[k])
    decreases k
  {
    if j < k {
      RunExtends(run, j, k - 1);
      RunStepExtends(run, run[j], k);
    }
  }

  lemma OnChainStays(run: seq<State>, j: nat, k: nat, digest: Digest)
    requires IsRun(run) && j <= k < |run| && OnChain(run[j], digest)
    ensures OnChain(run[k], digest)
  {
    RunExtends(run, j, k);
    var i :| 0 <= i < |run[j].log| && run[j].log[i].digest == digest;
    assert run[k].log[i] == run[j].log[i];
  }

  // ------------------------------------------------------------------------- the two exclusions

  lemma ConsumerIsAlone(c: State, fx: Effects, signed: Signed, pin: PinnedRef)
    requires Ok(c) && fx in c.log && fx.digest != signed.digest
    requires signed.digest in c.txs && c.txs[signed.digest] == signed && pin in signed.pinned
    requires pin.objectId in fx.changed && fx.changed[pin.objectId].input == Some(pin.version)
    ensures !OnChain(c, signed.digest)
  {
    var j :| 0 <= j < |c.log| && c.log[j] == fx;
    forall i | 0 <= i < |c.log| ensures c.log[i].digest != signed.digest {
      assert c.log[i].digest == signed.digest ==> PinTaken(c, c.log[i], pin);
      assert i < j || j < i || i == j;
    }
  }

  /** A transaction that consumed `(object, version)` in some state shuts out every other one that pins it,
      in that state and every later one. */
  lemma ConsumedShutsOut(run: seq<State>, k: nat, fx: Effects, signed: Signed, pin: PinnedRef)
    requires IsRun(run) && k < |run| && fx in run[k].log && fx.digest != signed.digest
    requires signed.digest in run[0].txs && run[0].txs[signed.digest] == signed && pin in signed.pinned
    requires pin.objectId in fx.changed && fx.changed[pin.objectId].input == Some(pin.version)
    ensures forall later :: k <= later < |run| ==> !OnChain(run[later], signed.digest)
  {
    forall later | k <= later < |run| ensures !OnChain(run[later], signed.digest) {
      RunIsOk(run, later);
      RunExtends(run, 0, later);
      RunExtends(run, k, later);
      var i :| 0 <= i < |run[k].log| && run[k].log[i] == fx;
      assert run[later].log[i] == fx;
      ConsumerIsAlone(run[later], fx, signed, pin);
    }
  }

  /** A transaction that is not in a state past its window is in no later one. */
  lemma ClosedWindowShutsOut(run: seq<State>, k: nat, signed: Signed)
    requires IsRun(run) && k < |run|
    requires signed.digest in run[0].txs && run[0].txs[signed.digest] == signed
    requires forall epoch, time :: run[k].epoch <= epoch && run[k].time <= time ==>
               !InWindow(signed, run[0].skew, epoch, time)
    requires !OnChain(run[k], signed.digest)
    ensures !OnChain(Last(run), signed.digest)
  {
    RunIsOk(run, |run| - 1);
    RunExtends(run, 0, |run| - 1);
    RunExtends(run, k, |run| - 1);
    forall i | 0 <= i < |Last(run).log| ensures Last(run).log[i].digest != signed.digest {
      assert i < |run[k].log| ==> Last(run).log[i] == run[k].log[i];
    }
  }
}
