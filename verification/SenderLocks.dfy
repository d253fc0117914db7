/** The sender locks: a registry of reference-counted semaphores, runs that take one or two of them
    in address order, and the counters of lock-free runs in flight that some runs drain first.

    Any number of runs interleave, one registry or semaphore operation at a time, and any of them
    may fail or be interrupted wherever it is. */
module SenderLocks {
  import opened Domain
  import R = Registry

  // ---------------------------------------------------------------------- which locks a run takes

  /** Strictly ascending, so without duplicates. */
  predicate Ascending(locks: seq<Address>) {
    forall i, j :: 0 <= i < j < |locks| ==> locks[i] < locks[j]
  }

  /** The payer is a gas owner other than the sender. */
  function PayerOf(sender: Address, gasOwner: Option<Address>): Option<Address> {
    if gasOwner == Some(sender) then None else gasOwner
  }

  /** `locked`: the sender, and the payer too unless gas comes from an address balance. */
  function LocksOf(sender: Address, gasOwner: Option<Address>, addressBalance: bool): seq<Address> {
    match PayerOf(sender, gasOwner)
    case None => [sender]
    case Some(payer) =>
      if addressBalance then [sender] else if sender < payer then [sender, payer] else [payer, sender]
  }

  /** Whose lock-free runs a `tx.gas` run waits for. */
  function DrainsOf(sender: Address, gasOwner: Option<Address>, usesGasCoin: bool): Option<Address> {
    if !usesGasCoin then None
    else match PayerOf(sender, gasOwner) case None => Some(sender) case Some(payer) => Some(payer)
  }

  /** One account never takes two locks, and the two parties of a run take theirs in one order
      whoever is sender and who pays; the payer a `tx.gas` run drains for is among the locks it takes. */
  lemma LockOrderIsGlobal(a: Address, b: Address, addressBalance: bool)
    ensures Ascending(LocksOf(a, Some(b), addressBalance)) && a in LocksOf(a, Some(b), addressBalance)
    ensures |LocksOf(a, Some(b), addressBalance)| == if a == b || addressBalance then 1 else 2
    ensures LocksOf(a, Some(b), false) == LocksOf(b, Some(a), false)
    ensures DrainsOf(a, Some(b), true).Some? && DrainsOf(a, Some(b), true).value in LocksOf(a, Some(b), false)
  {
  }

  /** Whose locks a run takes: its sender's always, the payer's when someone else pays with coins, and no
      one else's; a `tx.gas` run drains for whoever pays, and no other run drains. */
  lemma LocksAreThePartys(sender: Address, gasOwner: Option<Address>, addressBalance: bool)
    ensures forall a :: a in LocksOf(sender, gasOwner, addressBalance) <==>
              a == sender || (gasOwner == Some(a) && !addressBalance)
    ensures DrainsOf(sender, gasOwner, true) == Some(if gasOwner.Some? then gasOwner.value else sender)
    ensures DrainsOf(sender, gasOwner, false) == None
  {
  }

  // ------------------------------------------------------------------------------ the machine

  type RunId = nat
  type SemaphoreId = nat

  /** The runs in flight on one address: the counter, and (bookkeeping the program does not have) which
      runs it counts. */
  datatype Flights = Flights(count: nat, users: set<RunId>)

  datatype Phase =
    | Locking | Draining | Building | Registering | LockedFinish
    | Unlocking(leave: bool)   // `leave` when nothing is left to do once the locks are released
    | FreeFinish | Leaving | Over

  /** `refs` are the references taken, for the first `taken` locks in order; the first `got` of them
      are held. `drained` remembers that the run waited for the in-flight runs. */
  datatype Run = Run(
    locks: seq<Address>,
    drains: Option<Address>,
    taken: nat,
    got: nat,
    refs: map<Address, SemaphoreId>,
    held: set<Address>,
    on: set<Address>,
    registered: set<Address>,
    drained: bool,
    phase: Phase)

  datatype State = State(registry: R.Registry, inFlight: map<Address, Flights>, runs: map<RunId, Run>)

  function InFlight(s: State, address: Address): Flights {
    if address in s.inFlight then s.inFlight[address] else Flights(0, {})
  }

  datatype Event =
    | Arrive(id: RunId, locks: seq<Address>, drains: Option<Address>)
    | Reference(id: RunId)
    | Take(id: RunId)
    | Drain(id: RunId)
    | Build(id: RunId, keeps: bool, on: set<Address>)
    | Register(id: RunId, address: Address)
    | Registered(id: RunId)
    | Finish(id: RunId)
    | Release(id: RunId)
    | Dereference(id: RunId)
    | Unlocked(id: RunId)
    | Unregister(id: RunId, address: Address)
    | Leave(id: RunId)
    | Stop(id: RunId)

  predicate Stoppable(phase: Phase) {
    || phase.Locking? || phase.Draining? || phase.Building? || phase.Registering?
    || phase.LockedFinish? || phase.FreeFinish?
  }

  /** The semaphore the run waits for has its permit. */
  predicate Free(s: State, run: Run) {
    && run.got < |run.locks| && run.locks[run.got] in run.refs
    && run.refs[run.locks[run.got]] in s.registry.permits
    && s.registry.permits[run.refs[run.locks[run.got]]].holder == None
  }

  predicate Referenced(run: Run, i: nat) {
    i < |run.locks| && run.locks[i] in run.refs
  }

  predicate Enabled(s: State, event: Event) {
    match event
    case Arrive(id, locks, _) => id !in s.runs && Ascending(locks)
    case Reference(id) =>
      id in s.runs && s.runs[id].phase.Locking? && s.runs[id].taken == s.runs[id].got < |s.runs[id].locks|
    case Take(id) =>
      id in s.runs && s.runs[id].phase.Locking? && s.runs[id].got < s.runs[id].taken && Free(s, s.runs[id])
    case Drain(id) =>
      && id in s.runs && s.runs[id].phase.Draining? && s.runs[id].drains.Some?
      && InFlight(s, s.runs[id].drains.value).count == 0
    case Build(id, _, _) => id in s.runs && s.runs[id].phase.Building?
    case Register(id, address) =>
      id in s.runs && s.runs[id].phase.Registering? && address in s.runs[id].on - s.runs[id].registered
    case Registered(id) => id in s.runs && s.runs[id].phase.Registering? && s.runs[id].on <= s.runs[id].registered
    case Finish(id) => id in s.runs && (s.runs[id].phase.LockedFinish? || s.runs[id].phase.FreeFinish?)
    case Release(id) =>
      id in s.runs && s.runs[id].phase.Unlocking? && 0 < s.runs[id].got == s.runs[id].taken &&
      Referenced(s.runs[id], s.runs[id].got - 1)
    case Dereference(id) =>
      id in s.runs && s.runs[id].phase.Unlocking? && s.runs[id].got < s.runs[id].taken &&
      Referenced(s.runs[id], s.runs[id].taken - 1)
    case Unlocked(id) => id in s.runs && s.runs[id].phase.Unlocking? && s.runs[id].taken == 0
    case Unregister(id, address) => id in s.runs && s.runs[id].phase.Leaving? && address in s.runs[id].registered
    case Leave(id) => id in s.runs && s.runs[id].phase.Leaving? && s.runs[id].registered == {}
    case Stop(id) => id in s.runs && Stoppable(s.runs[id].phase)
  }

  function With(s: State, id: RunId, run: Run): State {
    s.(runs := s.runs[id := run])
  }

  /** Where a run goes once it holds all its locks. */
  function LocksHeld(run: Run): Phase {
    if run.drains.Some? then Draining else Building
  }

  function TakeReference(s: State, id: RunId): State
    requires Enabled(s, Reference(id))
  {
    var run := s.runs[id];
    var address := run.locks[run.taken];
    var (registry, sem) := R.Acquire(s.registry, address, id);
    With(s.(registry := registry), id, run.(taken := run.taken + 1, refs := run.refs[address := sem]))
  }

  function DropReference(s: State, id: RunId): State
    requires Enabled(s, Dereference(id))
  {
    var run := s.runs[id];
    var address := run.locks[run.taken - 1];
    var registry := R.Release(s.registry, address, run.refs[address], id);
    With(s.(registry := registry), id, run.(taken := run.taken - 1, refs := run.refs - {address}))
  }

  function PassLock(s: State, sem: SemaphoreId, holder: Option<RunId>): State {
    s.(registry := R.Pass(s.registry, sem, holder))
  }

  function Down(count: nat): nat {
    if count == 0 then 0 else count - 1
  }

  function Apply(s: State, event: Event): State
    requires Enabled(s, event)
  {
    match event
    case Arrive(id, locks, drains) =>
      var run := Run(locks, drains, 0, 0, map[], {}, {}, {}, false, Locking);
      With(s, id, if locks == [] then run.(phase := LocksHeld(run)) else run)
    case Reference(id) => TakeReference(s, id)
    case Take(id) =>
      var run := s.runs[id];
      var address := run.locks[run.got];
      With(PassLock(s, run.refs[address], Some(id)), id,
           run.(got := run.got + 1, held := run.held + {address},
                phase := if run.got + 1 == |run.locks| then LocksHeld(run) else Locking))
    case Drain(id) => With(s, id, s.runs[id].(drained := true, phase := Building))
    case Build(id, keeps, on) =>
      With(s, id, s.runs[id].(on := on, phase := if keeps then LockedFinish else Registering))
    case Register(id, address) =>
      With(s.(inFlight := s.inFlight[address := Flights(InFlight(s, address).count + 1,
                                                        InFlight(s, address).users + {id})]), id,
           s.runs[id].(registered := s.runs[id].registered + {address}))
    case Registered(id) => With(s, id, s.runs[id].(phase := Unlocking(false)))
    case Finish(id) =>
      With(s, id, s.runs[id].(phase := if s.runs[id].phase.LockedFinish? then Unlocking(true) else Leaving))
    case Release(id) =>
      var run := s.runs[id];
      var address := run.locks[run.got - 1];
      With(PassLock(s, run.refs[address], None), id, run.(got := run.got - 1, held := run.held - {address}))
    case Dereference(id) => DropReference(s, id)
    case Unlocked(id) => With(s, id, s.runs[id].(phase := if s.runs[id].phase.leave then Leaving else FreeFinish))
    case Unregister(id, address) =>
      With(s.(inFlight := s.inFlight[address := Flights(Down(InFlight(s, address).count),
                                                        InFlight(s, address).users - {id})]), id,
           s.runs[id].(registered := s.runs[id].registered - {address}))
    case Leave(id) => With(s, id, s.runs[id].(phase := Over))
    case Stop(id) =>
      With(s, id, s.runs[id].(phase := if s.runs[id].phase.FreeFinish? then Leaving else Unlocking(true)))
  }

  // -------------------------------------------------------------------------------- invariants

  /** `addresses` are the first `k` of `locks`. */
  predicate IsPrefix(locks: seq<Address>, k: nat, addresses: set<Address>) {
    && k <= |locks|
    && (forall i :: 0 <= i < |locks| ==> (locks[i] in addresses <==> i < k))
    && (forall a :: a in addresses ==> a in locks)
  }

  predicate Holding(phase: Phase) {
    phase.Draining? || phase.Building? || phase.Registering? || phase.LockedFinish?
  }

  /** What each run's own fields say about one another. */
  predicate RunOk(run: Run) {
    && Ascending(run.locks)
    && run.got <= run.taken <= run.got + 1
    && IsPrefix(run.locks, run.taken, run.refs.Keys) && IsPrefix(run.locks, run.got, run.held)
    && (run.phase.Locking? ==> run.got < |run.locks|)
    && (run.phase.Draining? ==> run.drains.Some?)
    && (Holding(run.phase) ==> run.got == |run.locks|)
    && (run.phase.FreeFinish? || run.phase.Leaving? || run.phase.Over? ==> run.taken == 0)
    && (run.registered != {} ==>
          run.phase.Registering? || run.phase.Unlocking? || run.phase.FreeFinish? || run.phase.Leaving?)
    && (run.drained ==> run.drains.Some? && !run.phase.Locking? && !run.phase.Draining?)
    && (PastDrain(run.phase) && run.drains.Some? ==> run.drained)
    && (run.phase == Unlocking(false) || run.phase.FreeFinish? ==> run.on <= run.registered)
  }

  predicate PastDrain(phase: Phase) {
    phase.Building? || phase.Registering? || phase.LockedFinish?
  }

  ghost predicate RunsOk(s: State) {
    forall id :: id in s.runs ==> RunOk(s.runs[id])
  }

  /** The registry counts exactly the references the runs hold, each of them to the one semaphore the
      address has. */
  ghost predicate ReferencesAgree(s: State) {
    && (forall a, id :: id in R.Users(s.registry, a) <==> id in s.runs && a in s.runs[id].refs)
    && (forall a, id :: id in s.runs && a in s.runs[id].refs ==>
          a in s.registry.entries && s.registry.entries[a] == s.runs[id].refs[a])
  }

  /** The permit of an address's semaphore is with the run that holds the lock, and with nobody else. */
  ghost predicate HoldersAgree(s: State) {
    forall a, id :: R.HolderOf(s.registry, a) == Some(id) <==> id in s.runs && a in s.runs[id].held
  }

  /** Each address's counter is the number of registered runs on it. */
  ghost predicate CountersAgree(s: State) {
    && (forall a :: a in s.inFlight ==> s.inFlight[a].count == |s.inFlight[a].users|)
    && (forall a, id :: id in InFlight(s, a).users <==> id in s.runs && a in s.runs[id].registered)
  }

  /** While a drained run holds the lock of the payer it drained, no other run that takes that lock is
      in flight on it. */
  ghost predicate DrainedIsExclusive(s: State) {
    forall r, l :: r in s.runs && l in s.runs && l != r && DrainHeld(s.runs[r]) ==>
      !(s.runs[r].drains.value in s.runs[l].locks && s.runs[r].drains.value in s.runs[l].registered)
  }

  predicate DrainHeld(run: Run) {
    run.drained && run.drains.Some? && run.drains.value in run.held
  }

  ghost predicate Inv(s: State) {
    RunsOk(s) && LocksAgree(s) && CountersAgree(s) && DrainedIsExclusive(s)
  }

  // ------------------------------------------------------------------------------ the registry

  lemma TakenOneMore(run: Run, sem: SemaphoreId)
    requires RunOk(run) && run.phase.Locking? && run.taken == run.got < |run.locks|
    ensures run.locks[run.taken] !in run.refs
    ensures RunOk(run.(taken := run.taken + 1, refs := run.refs[run.locks[run.taken] := sem]))
  {
  }

  lemma GotOneMore(run: Run)
    requires RunOk(run) && run.phase.Locking? && run.got < run.taken
    ensures RunOk(run.(got := run.got + 1, held := run.held + {run.locks[run.got]},
                       phase := if run.got + 1 == |run.locks| then LocksHeld(run) else Locking))
  {
  }

  lemma GotOneLess(run: Run)
    requires RunOk(run) && run.phase.Unlocking? && 0 < run.got == run.taken
    ensures RunOk(run.(got := run.got - 1, held := run.held - {run.locks[run.got - 1]}))
  {
  }

  lemma TakenOneLess(run: Run)
    requires RunOk(run) && run.phase.Unlocking? && run.got < run.taken
    ensures run.locks[run.taken - 1] in run.refs
    ensures RunOk(run.(taken := run.taken - 1, refs := run.refs - {run.locks[run.taken - 1]}))
  {
  }

  // --------------------------------------------------------------------------- preservation

  predicate IsLockEvent(event: Event) {
    event.Reference? || event.Take? || event.Release? || event.Dereference?
  }

  /** An event is one run's own. */
  lemma OneRunMoves(s: State, event: Event)
    requires Enabled(s, event)
    ensures event.id in Apply(s, event).runs
    ensures Apply(s, event).runs == s.runs[event.id := Apply(s, event).runs[event.id]]
  {
  }

  lemma LockEventKeepsRunOk(s: State, event: Event)
    requires IsLockEvent(event) && Enabled(s, event) && RunOk(s.runs[event.id])
    ensures RunOk(Apply(s, event).runs[event.id])
  {
    var run, now := s.runs[event.id], Apply(s, event).runs[event.id];
    match event
    case Reference(_) =>
      var sem := R.Acquire(s.registry, run.locks[run.taken], event.id).1;
      TakenOneMore(run, sem);
      assert now == run.(taken := run.taken + 1, refs := run.refs[run.locks[run.taken] := sem]);
    case Take(_) => GotOneMore(run);
    case Release(_) => GotOneLess(run);
    case Dereference(_) => TakenOneLess(run);
  }

  lemma PhaseEventKeepsRunOk(s: State, event: Event)
    requires !IsLockEvent(event) && Enabled(s, event) && (event.Arrive? || RunOk(s.runs[event.id]))
    ensures RunOk(Apply(s, event).runs[event.id])
  {
  }

  lemma EventKeepsRunsOk(s: State, event: Event)
    requires RunsOk(s) && Enabled(s, event)
    ensures RunsOk(Apply(s, event))
  {
    OneRunMoves(s, event);
    if IsLockEvent(event) {
      LockEventKeepsRunOk(s, event);
    } else {
      PhaseEventKeepsRunOk(s, event);
    }
  }

  /** The registry side of the invariant. */
  ghost predicate LocksAgree(s: State) {
    && R.Ok(s.registry) && ReferencesAgree(s) && HoldersAgree(s)
    && forall id, a :: id in s.runs && a in s.runs[id].held ==> a in s.runs[id].refs
  }

  ghost predicate OneRunChanged(s: State, s': State, id: RunId) {
    id in s.runs && id in s'.runs && s'.runs == s.runs[id := s'.runs[id]]
  }

  ghost predicate ReferenceTaken(s: State, s': State, id: RunId, a: Address) {
    && OneRunChanged(s, s', id) && a !in s.runs[id].refs && s'.runs[id].held == s.runs[id].held
    && var (registry, sem) := R.Acquire(s.registry, a, id);
       s'.registry == registry && s'.runs[id].refs == s.runs[id].refs[a := sem]
  }

  lemma ReferenceIsCounted(s: State, s': State, id: RunId, a: Address)
    requires R.Ok(s.registry) && ReferencesAgree(s) && ReferenceTaken(s, s', id, a)
    ensures R.Ok(s'.registry)
    ensures forall b, r :: r in R.Users(s'.registry, b) <==> r in s'.runs && b in s'.runs[r].refs
  {
    R.AcquireShares(s.registry, a, id);
    var (registry, sem) := R.Acquire(s.registry, a, id);
    forall b, r ensures r in R.Users(registry, b) <==> r in s'.runs && b in s'.runs[r].refs {
      assert r in R.Users(s.registry, b) <==> r in s.runs && b in s.runs[r].refs;
    }
  }

  lemma ReferenceKeepsReferences(s: State, s': State, id: RunId, a: Address)
    requires R.Ok(s.registry) && ReferencesAgree(s) && ReferenceTaken(s, s', id, a)
    ensures R.Ok(s'.registry) && ReferencesAgree(s')
  {
    ReferenceIsCounted(s, s', id, a);
    ReferenceIsCurrent(s, s', id, a);
  }

  lemma ReferenceIsCurrent(s: State, s': State, id: RunId, a: Address)
    requires R.Ok(s.registry) && ReferencesAgree(s) && ReferenceTaken(s, s', id, a)
    ensures forall b, r :: r in s'.runs && b in s'.runs[r].refs ==>
              b in s'.registry.entries && s'.registry.entries[b] == s'.runs[r].refs[b]
  {
    R.AcquireShares(s.registry, a, id);
    var (registry, sem) := R.Acquire(s.registry, a, id);
    forall b, r | r in s'.runs && b in s'.runs[r].refs
      ensures b in registry.entries && registry.entries[b] == s'.runs[r].refs[b]
    {
      if !(r == id && b == a) {
        assert r in s.runs && b in s.runs[r].refs && s'.runs[r].refs[b] == s.runs[r].refs[b];
        assert r in R.Users(s.registry, b);
      }
    }
  }

  lemma ReferenceKeepsHolders(s: State, s': State, id: RunId, a: Address)
    requires R.Ok(s.registry) && ReferencesAgree(s) && HoldersAgree(s) && ReferenceTaken(s, s', id, a)
    ensures HoldersAgree(s')
  {
    R.AcquireShares(s.registry, a, id);
    forall b ensures R.HolderOf(s'.registry, b) == R.HolderOf(s.registry, b) {
    }
  }

  lemma ReferenceKeepsLocks(s: State, s': State, id: RunId, a: Address)
    requires LocksAgree(s) && ReferenceTaken(s, s', id, a)
    ensures LocksAgree(s')
  {
    ReferenceKeepsReferences(s, s', id, a);
    ReferenceKeepsHolders(s, s', id, a);
  }

  ghost predicate ReferenceDropped(s: State, s': State, id: RunId, a: Address) {
    && OneRunChanged(s, s', id) && a in s.runs[id].refs && a !in s.runs[id].held
    && s'.registry == R.Release(s.registry, a, s.runs[id].refs[a], id)
    && s'.runs[id].refs == s.runs[id].refs - {a} && s'.runs[id].held == s.runs[id].held
  }

  lemma DereferenceKeepsReferences(s: State, s': State, id: RunId, a: Address)
    requires R.Ok(s.registry) && ReferencesAgree(s) && ReferenceDropped(s, s', id, a)
    ensures R.Ok(s'.registry) && ReferencesAgree(s')
  {
    R.ReleaseDrops(s.registry, a, s.runs[id].refs[a], id);
  }

  lemma DereferenceKeepsHolders(s: State, s': State, id: RunId, a: Address)
    requires LocksAgree(s) && ReferenceDropped(s, s', id, a)
    ensures HoldersAgree(s')
  {
    R.ReleaseDrops(s.registry, a, s.runs[id].refs[a], id);
  }

  lemma DereferenceKeepsLocks(s: State, s': State, id: RunId, a: Address)
    requires LocksAgree(s) && ReferenceDropped(s, s', id, a)
    ensures LocksAgree(s')
  {
    DereferenceKeepsReferences(s, s', id, a);
    DereferenceKeepsHolders(s, s', id, a);
  }

  ghost predicate PermitPassed(s: State, s': State, id: RunId, a: Address, holder: Option<RunId>) {
    && OneRunChanged(s, s', id) && a in s.runs[id].refs
    && s'.registry == R.Pass(s.registry, s.runs[id].refs[a], holder)
    && s'.runs[id].refs == s.runs[id].refs
  }

  lemma PassKeepsReferences(s: State, s': State, id: RunId, a: Address, holder: Option<RunId>)
    requires R.Ok(s.registry) && ReferencesAgree(s) && PermitPassed(s, s', id, a, holder)
    ensures R.Ok(s'.registry) && ReferencesAgree(s')
  {
    R.PassKeeps(s.registry, a, holder);
  }

  lemma TakeKeepsLocks(s: State, s': State, id: RunId, a: Address)
    requires LocksAgree(s) && PermitPassed(s, s', id, a, Some(id)) && R.HolderOf(s.registry, a) == None
    requires s'.runs[id].held == s.runs[id].held + {a}
    ensures LocksAgree(s')
  {
    PassKeepsReferences(s, s', id, a, Some(id));
    R.PassKeeps(s.registry, a, Some(id));
    forall b, r ensures R.HolderOf(s'.registry, b) == Some(r) <==> r in s'.runs && b in s'.runs[r].held {
      assert R.HolderOf(s.registry, b) == Some(r) <==> r in s.runs && b in s.runs[r].held;
    }
  }

  lemma ReleaseKeepsLocks(s: State, s': State, id: RunId, a: Address)
    requires LocksAgree(s) && PermitPassed(s, s', id, a, None) && a in s.runs[id].held
    requires s'.runs[id].held == s.runs[id].held - {a}
    ensures LocksAgree(s')
  {
    PassKeepsReferences(s, s', id, a, None);
    R.PassKeeps(s.registry, a, None);
    forall b, r ensures R.HolderOf(s'.registry, b) == Some(r) <==> r in s'.runs && b in s'.runs[r].held {
      assert R.HolderOf(s.registry, b) == Some(r) <==> r in s.runs && b in s.runs[r].held;
    }
  }

  lemma KeptLocks(s: State, s': State)
    requires LocksAgree(s) && s'.registry == s.registry && s.runs.Keys <= s'.runs.Keys
    requires forall id :: id in s'.runs ==>
               if id in s.runs then s'.runs[id].refs == s.runs[id].refs && s'.runs[id].held == s.runs[id].held
               else s'.runs[id].refs == map[] && s'.runs[id].held == {}
    ensures LocksAgree(s')
  {
  }

  lemma PhaseEventKeepsLocks(s: State, event: Event)
    requires LocksAgree(s) && !IsLockEvent(event) && Enabled(s, event)
    requires event.Arrive? || RunOk(s.runs[event.id])
    ensures LocksAgree(Apply(s, event))
  {
    OneRunMoves(s, event);
    PhaseEventMovesNoLock(s, event);
    KeptLocks(s, Apply(s, event));
  }

  lemma PhaseEventMovesNoLock(s: State, event: Event)
    requires !IsLockEvent(event) && Enabled(s, event) && (event.Arrive? || RunOk(s.runs[event.id]))
    ensures var run := Apply(s, event).runs[event.id];
            if event.Arrive? then run.refs == map[] && run.held == {}
            else run.refs == s.runs[event.id].refs && run.held == s.runs[event.id].held
    ensures Apply(s, event).registry == s.registry
  {
  }

  lemma LockEventKeepsLocks(s: State, event: Event)
    requires LocksAgree(s) && IsLockEvent(event) && Enabled(s, event) && RunOk(s.runs[event.id])
    ensures LocksAgree(Apply(s, event))
  {
    var run := s.runs[event.id];
    var s' := Apply(s, event);
    OneRunMoves(s, event);
    match event {
      case Reference(id) => ReferenceKeepsLocks(s, s', id, run.locks[run.taken]);
      case Dereference(id) => DereferenceKeepsLocks(s, s', id, run.locks[run.taken - 1]);
      case Take(id) => TakeKeepsLocks(s, s', id, run.locks[run.got]);
      case Release(id) => ReleaseKeepsLocks(s, s', id, run.locks[run.got - 1]);
    }
  }

  // ---------------------------------------------------------------------- the in-flight counters

  lemma RegisterKeepsCounters(s: State, s': State, id: RunId, a: Address)
    requires CountersAgree(s) && OneRunChanged(s, s', id) && a !in s.runs[id].registered
    requires s'.inFlight == s.inFlight[a := Flights(InFlight(s, a).count + 1, InFlight(s, a).users + {id})]
    requires s'.runs[id].registered == s.runs[id].registered + {a}
    ensures CountersAgree(s')
  {
    assert id !in InFlight(s, a).users;
    forall b, r ensures r in InFlight(s', b).users <==> r in s'.runs && b in s'.runs[r].registered {
      assert r in InFlight(s, b).users <==> r in s.runs && b in s.runs[r].registered;
    }
  }

  lemma UnregisterKeepsCounters(s: State, s': State, id: RunId, a: Address)
    requires CountersAgree(s) && OneRunChanged(s, s', id) && a in s.runs[id].registered
    requires s'.inFlight == s.inFlight[a := Flights(Down(InFlight(s, a).count), InFlight(s, a).users - {id})]
    requires s'.runs[id].registered == s.runs[id].registered - {a}
    ensures CountersAgree(s')
  {
    assert id in InFlight(s, a).users;
    forall b, r ensures r in InFlight(s', b).users <==> r in s'.runs && b in s'.runs[r].registered {
      assert r in InFlight(s, b).users <==> r in s.runs && b in s.runs[r].registered;
    }
  }

  lemma KeptCounters(s: State, s': State)
    requires CountersAgree(s) && s'.inFlight == s.inFlight && s.runs.Keys <= s'.runs.Keys
    requires forall id :: id in s'.runs ==> s'.runs[id].registered == if id in s.runs then s.runs[id].registered else {}
    ensures CountersAgree(s')
  {
    forall b, r ensures r in InFlight(s', b).users <==> r in s'.runs && b in s'.runs[r].registered {
      assert r in InFlight(s, b).users <==> r in s.runs && b in s.runs[r].registered;
    }
  }

  lemma EventKeepsCounters(s: State, event: Event)
    requires CountersAgree(s) && Enabled(s, event)
    ensures CountersAgree(Apply(s, event))
  {
    OneRunMoves(s, event);
    var s' := Apply(s, event);
    match event {
      case Register(id, a) => RegisterKeepsCounters(s, s', id, a);
      case Unregister(id, a) => UnregisterKeepsCounters(s, s', id, a);
      case _ => KeptCounters(s, s');
    }
  }

  // ----------------------------------------------------------------------------- what is excluded

  /** Two runs never hold one address's lock at the same time. */
  lemma LocksExclude(s: State, a: Address, r: RunId, l: RunId)
    requires HoldersAgree(s) && r in s.runs && l in s.runs
    requires a in s.runs[r].held && a in s.runs[l].held
    ensures r == l
  {
    assert R.HolderOf(s.registry, a) == Some(r);
  }

  lemma HoldingHoldsAll(run: Run, a: Address)
    requires RunOk(run) && Holding(run.phase) && a in run.locks
    ensures a in run.held
  {
    var i :| 0 <= i < |run.locks| && run.locks[i] == a;
  }

  lemma EventKeepsDrained(s: State, event: Event)
    requires Inv(s) && Enabled(s, event)
    ensures DrainedIsExclusive(Apply(s, event))
  {
    OneRunMoves(s, event);
    var s' := Apply(s, event);
    forall r, l | r in s'.runs && l in s'.runs && l != r && DrainHeld(s'.runs[r])
      ensures !(s'.runs[r].drains.value in s'.runs[l].locks && s'.runs[r].drains.value in s'.runs[l].registered)
    {
      assert r != event.id ==> s'.runs[r] == s.runs[r];
      assert l != event.id ==> s'.runs[l] == s.runs[l];
      if event.id == l {
        LaterRegistration(s, event, r, l);
      } else if event.id == r {
        DrainSawNone(s, event, l);
      }
    }
  }

  /** A run that takes the payer's lock cannot register while the drained run has it. */
  lemma LaterRegistration(s: State, event: Event, r: RunId, l: RunId)
    requires Inv(s) && Enabled(s, event) && event.id == l != r && r in s.runs && DrainHeld(s.runs[r])
    ensures var run := Apply(s, event).runs[l];
            !(s.runs[r].drains.value in run.locks && s.runs[r].drains.value in run.registered)
  {
    var payer := s.runs[r].drains.value;
    if event.Register? && event.address == payer && payer in s.runs[l].locks {
      HoldingHoldsAll(s.runs[l], payer);
      LocksExclude(s, payer, r, l);
    }
  }

  /** A run that has just drained saw nobody in flight. */
  lemma DrainSawNone(s: State, event: Event, l: RunId)
    requires Inv(s) && Enabled(s, event) && l in s.runs && l != event.id
    requires DrainHeld(Apply(s, event).runs[event.id])
    ensures var payer := Apply(s, event).runs[event.id].drains.value;
            !(payer in s.runs[l].locks && payer in s.runs[l].registered)
  {
    if event.Drain? {
      assert InFlight(s, s.runs[event.id].drains.value).users == {};
      assert l !in InFlight(s, s.runs[event.id].drains.value).users;
    } else {
      DrainedBefore(s, event);
    }
  }

  lemma DrainedBefore(s: State, event: Event)
    requires Inv(s) && Enabled(s, event) && !event.Drain? && DrainHeld(Apply(s, event).runs[event.id])
    ensures !event.Arrive? && DrainHeld(s.runs[event.id])
    ensures Apply(s, event).runs[event.id].drains == s.runs[event.id].drains
  {
  }

  // ------------------------------------------------------------------------------- main results

  ghost predicate Initial(s: State) {
    s == State(R.Registry(map[], map[], 0), map[], map[])
  }

  lemma EventKeepsInv(s: State, event: Event)
    requires Inv(s) && Enabled(s, event)
    ensures Inv(Apply(s, event))
  {
    EventKeepsRunsOk(s, event);
    if IsLockEvent(event) {
      LockEventKeepsLocks(s, event);
    } else {
      PhaseEventKeepsLocks(s, event);
    }
    EventKeepsCounters(s, event);
    EventKeepsDrained(s, event);
  }

  ghost predicate IsHistory(s: State, events: seq<Event>)
    decreases |events|
  {
    events == [] ||
    (Enabled(s, events[0]) && IsHistory(Apply(s, events[0]), events[1..]))
  }

  ghost function After(s: State, events: seq<Event>): State
    requires IsHistory(s, events)
    decreases |events|
  {
    if events == [] then s else After(Apply(s, events[0]), events[1..])
  }

  lemma {:induction false} HistoryKeepsInv(s: State, events: seq<Event>)
    requires Inv(s) && IsHistory(s, events)
    ensures Inv(After(s, events))
    decreases |events|
  {
    if events != [] {
      EventKeepsInv(s, events[0]);
      HistoryKeepsInv(Apply(s, events[0]), events[1..]);
    }
  }

  lemma InitialIsInv(s: State)
    requires Initial(s)
    ensures Inv(s)
  {
  }

  lemma RegistryCountsUsers(s: State, a: Address)
    requires Inv(s)
    ensures var users := set id | id in s.runs && a in s.runs[id].refs;
            && (a in s.registry.entries <==> users != {})
            && (a in s.registry.entries ==>
                  && s.registry.entries[a] in s.registry.permits
                  && s.registry.permits[s.registry.entries[a]].refs == |users|
                  && forall id :: id in users ==> s.runs[id].refs[a] == s.registry.entries[a])
            && (forall sem :: sem in s.registry.permits ==>
                  s.registry.permits[sem].address in s.registry.entries &&
                  s.registry.entries[s.registry.permits[sem].address] == sem)
  {
    var users := set id | id in s.runs && a in s.runs[id].refs;
    assert users == R.Users(s.registry, a);
  }

  /** The registry refines one lock per address: an entry exists exactly while some run references it,
      counts those runs, and every one of them references that same semaphore. */
  lemma RegistryIsOneLockPerAddress(s: State, events: seq<Event>, a: Address)
    requires Initial(s) && IsHistory(s, events)
    ensures var s' := After(s, events);
            var users := set id | id in s'.runs && a in s'.runs[id].refs;
            && (a in s'.registry.entries <==> users != {})
            && (a in s'.registry.entries ==>
                  && s'.registry.entries[a] in s'.registry.permits
                  && s'.registry.permits[s'.registry.entries[a]].refs == |users|
                  && forall id :: id in users ==> s'.runs[id].refs[a] == s'.registry.entries[a])
            && (forall sem :: sem in s'.registry.permits ==>
                  s'.registry.permits[sem].address in s'.registry.entries &&
                  s'.registry.entries[s'.registry.permits[sem].address] == sem)
  {
    InitialIsInv(s);
    HistoryKeepsInv(s, events);
    RegistryCountsUsers(After(s, events), a);
  }

  /** Two runs that take a common lock are never both between the drain and the release of their locks:
      no build, and no submission of pinned bytes, overlaps another on the same address. */
  lemma RunsNeverOverlap(s: State, events: seq<Event>, r: RunId, l: RunId, a: Address)
    requires Initial(s) && IsHistory(s, events)
    requires r in After(s, events).runs && l in After(s, events).runs
    requires a in After(s, events).runs[r].locks && a in After(s, events).runs[l].locks
    requires Holding(After(s, events).runs[r].phase) && Holding(After(s, events).runs[l].phase)
    ensures r == l
  {
    InitialIsInv(s);
    HistoryKeepsInv(s, events);
    var s' := After(s, events);
    HoldingHoldsAll(s'.runs[r], a);
    HoldingHoldsAll(s'.runs[l], a);
    LocksExclude(s', a, r, l);
  }

  /** The counter of an address is the number of registered runs on it, through success, failure and
      interruption. A run that is to drain its payer, and takes the payer's lock, builds, and finishes
      under its locks, only while no other run that takes that lock is registered on the payer or in flight
      with bytes on it; and once it has drained, none is for as long as it holds that lock. */
  lemma DrainedRunsSeeNoneInFlight(s: State, events: seq<Event>, a: Address)
    requires Initial(s) && IsHistory(s, events)
    ensures var s' := After(s, events);
            && InFlight(s', a).count == |set id | id in s'.runs && a in s'.runs[id].registered|
            && (forall r, l ::
                  r in s'.runs && l in s'.runs && l != r && s'.runs[r].drains == Some(a) && a in s'.runs[r].locks &&
                  (s'.runs[r].phase.Building? || s'.runs[r].phase.Registering? || s'.runs[r].phase.LockedFinish?) ==>
                  !(a in s'.runs[l].locks && a in s'.runs[l].registered) &&
                  !(a in s'.runs[l].locks && a in s'.runs[l].on && s'.runs[l].phase.FreeFinish?))
            && forall r, l ::
                 r in s'.runs && l in s'.runs && l != r && DrainHeld(s'.runs[r]) && s'.runs[r].drains == Some(a) ==>
                 !(a in s'.runs[l].locks && a in s'.runs[l].registered)
  {
    InitialIsInv(s);
    HistoryKeepsInv(s, events);
    var s' := After(s, events);
    forall r | r in s'.runs && s'.runs[r].drains == Some(a) && a in s'.runs[r].locks && PastDrain(s'.runs[r].phase)
      ensures DrainHeld(s'.runs[r])
    {
      HoldingHoldsAll(s'.runs[r], a);
    }
    var users := set id | id in s'.runs && a in s'.runs[id].registered;
    assert users == InFlight(s', a).users;
  }

  /** What a run with built bytes is, until it has settled or failed: under all its locks when it keeps
      them, and otherwise under them until it is registered on every address its bytes are on. */
  predicate Covered(run: Run, keeps: bool, on: set<Address>) {
    && run.on == on
    && (forall a :: a in run.locks && (keeps || run.phase.Registering?) ==> a in run.held)
    && (if keeps then run.phase.LockedFinish?
        else
          || run.phase.Registering?
          || ((run.phase == Unlocking(false) || run.phase.FreeFinish?) && on <= run.registered))
  }

  lemma OthersAreUntouched(s: State, event: Event, id: RunId)
    requires Enabled(s, event) && event.id != id && id in s.runs
    ensures id in Apply(s, event).runs && Apply(s, event).runs[id] == s.runs[id]
  {
    OneRunMoves(s, event);
  }

  lemma StaysCovered(s: State, event: Event, id: RunId, keeps: bool, on: set<Address>)
    requires Enabled(s, event) && id in s.runs && Covered(s.runs[id], keeps, on)
    requires event != Finish(id) && event != Stop(id)
    ensures id in Apply(s, event).runs && Covered(Apply(s, event).runs[id], keeps, on)
  {
    if event.id != id {
      OthersAreUntouched(s, event, id);
    }
  }

  lemma {:induction false} CoveredUntilSettled(s: State, events: seq<Event>, id: RunId, keeps: bool, on: set<Address>)
    requires IsHistory(s, events) && id in s.runs && Covered(s.runs[id], keeps, on)
    requires forall k :: 0 <= k < |events| ==> events[k] != Finish(id) && events[k] != Stop(id)
    ensures id in After(s, events).runs && Covered(After(s, events).runs[id], keeps, on)
    decreases |events|
  {
    if events != [] {
      StaysCovered(s, events[0], id, keeps, on);
      CoveredUntilSettled(Apply(s, events[0]), events[1..], id, keeps, on);
    }
  }

  /** From its build to its settlement, in every history, a run whose bytes keep the lock holds all its locks,
      and one whose bytes do not lets go of them only when it is registered on all its bytes are on. */
  lemma BuiltRunsAreCovered(s: State, before: seq<Event>, id: RunId, keeps: bool, on: set<Address>, events: seq<Event>)
    requires Initial(s) && IsHistory(s, before) && Enabled(After(s, before), Build(id, keeps, on))
    requires IsHistory(Apply(After(s, before), Build(id, keeps, on)), events)
    requires forall k :: 0 <= k < |events| ==> events[k] != Finish(id) && events[k] != Stop(id)
    ensures var s' := After(Apply(After(s, before), Build(id, keeps, on)), events);
            id in s'.runs && Covered(s'.runs[id], keeps, on)
  {
    InitialIsInv(s);
    HistoryKeepsInv(s, before);
    var built := After(s, before);
    forall a | a in built.runs[id].locks ensures a in built.runs[id].held {
      HoldingHoldsAll(built.runs[id], a);
    }
    CoveredUntilSettled(Apply(built, Build(id, keeps, on)), events, id, keeps, on);
  }

  // ---------------------------------------------------------------------------- no deadlock

  predicate Unfinished(s: State, id: RunId) {
    id in s.runs && !s.runs[id].phase.Over?
  }

  /** The run waits for a permit that another run has. */
  predicate Waiting(s: State, id: RunId) {
    id in s.runs && s.runs[id].phase.Locking? && s.runs[id].got < s.runs[id].taken && !Free(s, s.runs[id])
  }

  /** The run waits for the in-flight runs of its payer. */
  predicate DrainBlocked(s: State, id: RunId) {
    id in s.runs && s.runs[id].phase.Draining? && s.runs[id].drains.Some? &&
    InFlight(s, s.runs[id].drains.value).count > 0
  }

  /** The run can make progress of its own, not only fail. */
  ghost predicate CanStep(s: State, id: RunId) {
    exists event: Event :: event.id == id && !event.Arrive? && !event.Stop? && Enabled(s, event)
  }

  /** What an unblocked run does next. */
  ghost function NextEvent(s: State, id: RunId): Event
    requires Unfinished(s, id) && RunOk(s.runs[id])
  {
    var run := s.runs[id];
    match run.phase
    case Locking => if run.got < run.taken then Take(id) else Reference(id)
    case Draining => Drain(id)
    case Building => Build(id, true, {})
    case Registering =>
      if run.on <= run.registered then Registered(id)
      else var a :| a in run.on - run.registered; Register(id, a)
    case LockedFinish => Finish(id)
    case Unlocking(_) =>
      if run.got < run.taken then Dereference(id) else if run.taken > 0 then Release(id) else Unlocked(id)
    case FreeFinish => Finish(id)
    case Leaving =>
      if run.registered == {} then Leave(id)
      else var a :| a in run.registered; Unregister(id, a)
    case Over => assert false; Leave(id)
  }

  lemma UnblockedRunsStep(s: State, id: RunId)
    requires RunsOk(s) && Unfinished(s, id) && !Waiting(s, id) && !DrainBlocked(s, id)
    ensures CanStep(s, id)
  {
    assert Enabled(s, NextEvent(s, id));
  }

  /** A run in flight waits on nothing. */
  lemma RegisteredRunsStep(s: State, id: RunId)
    requires RunsOk(s) && id in s.runs && s.runs[id].registered != {}
    ensures CanStep(s, id)
  {
    UnblockedRunsStep(s, id);
  }

  function Wanted(s: State, id: RunId): Address
    requires RunsOk(s) && Waiting(s, id)
  {
    s.runs[id].locks[s.runs[id].got]
  }

  /** Locks are taken in ascending order: a waiting run wants more than anything it holds. */
  lemma WantsMoreThanItHolds(s: State, id: RunId, a: Address)
    requires RunsOk(s) && id in s.runs && a in s.runs[id].held
    ensures Waiting(s, id) ==> a < Wanted(s, id)
    ensures Unfinished(s, id)
  {
    var run := s.runs[id];
    var i :| 0 <= i < |run.locks| && run.locks[i] == a;
  }

  lemma {:induction false} WantsMost(s: State, waiting: set<RunId>) returns (most: RunId)
    requires RunsOk(s) && waiting != {} && forall id :: id in waiting ==> Waiting(s, id)
    ensures most in waiting && forall id :: id in waiting ==> Wanted(s, id) <= Wanted(s, most)
    decreases |waiting|
  {
    var id :| id in waiting;
    most := id;
    if waiting != {id} {
      var other := WantsMost(s, waiting - {id});
      if Wanted(s, id) < Wanted(s, other) {
        most := other;
      }
    }
  }

  lemma WaitedForRunHolds(s: State, id: RunId) returns (holder: RunId)
    requires RunsOk(s) && LocksAgree(s) && Waiting(s, id)
    ensures holder in s.runs && Wanted(s, id) in s.runs[holder].held
  {
    var a := Wanted(s, id);
    assert a in s.runs[id].refs;
    assert R.HolderOf(s.registry, a).Some?;
    holder := R.HolderOf(s.registry, a).value;
  }

  /** A run that drains waits for runs that wait for nothing. */
  lemma DrainedForRunSteps(s: State, id: RunId)
    requires RunsOk(s) && CountersAgree(s) && DrainBlocked(s, id)
    ensures exists r :: CanStep(s, r)
  {
    var users := InFlight(s, s.runs[id].drains.value).users;
    assert |users| > 0;
    var l :| l in users;
    RegisteredRunsStep(s, l);
  }

  /** Of all the runs that wait, one waits for a run that does not. */
  lemma WaitedForRunSteps(s: State, id: RunId)
    requires RunsOk(s) && LocksAgree(s) && Waiting(s, id) && forall d :: d in s.runs ==> !DrainBlocked(s, d)
    ensures exists r :: CanStep(s, r)
  {
    var waiting := set r | r in s.runs && Waiting(s, r);
    assert id in waiting;
    var most := WantsMost(s, waiting);
    var holder := WaitedForRunHolds(s, most);
    WantsMoreThanItHolds(s, holder, Wanted(s, most));
    assert holder !in waiting;
    UnblockedRunsStep(s, holder);
  }

  /** No reachable state is deadlocked: while any run is unfinished, some run can make progress. */
  lemma NeverDeadlocked(s: State, events: seq<Event>, id: RunId)
    requires Initial(s) && IsHistory(s, events) && Unfinished(After(s, events), id)
    ensures exists r :: CanStep(After(s, events), r)
  {
    InitialIsInv(s);
    HistoryKeepsInv(s, events);
    ProgressIsPossible(After(s, events), id);
  }

  lemma ProgressIsPossible(s: State, id: RunId)
    requires Inv(s) && Unfinished(s, id)
    ensures exists r :: CanStep(s, r)
  {
    if d :| DrainBlocked(s, d) {
      DrainedForRunSteps(s, d);
    } else if Waiting(s, id) {
      WaitedForRunSteps(s, id);
    } else {
      UnblockedRunsStep(s, id);
    }
  }

  /** How many stages a run still has before it is over. */
  function StagesLeft(phase: Phase): nat {
    match phase
    case Locking => 8
    case Draining => 7
    case Building => 6
    case Registering => 5
    case LockedFinish => 4
    case Unlocking(_) => 3
    case FreeFinish => 2
    case Leaving => 1
    case Over => 0
  }

  /** How many steps its stage still has. */
  function StepsLeft(run: Run): int {
    match run.phase
    case Locking => 2 * |run.locks| - run.taken - run.got
    case Registering => |run.on - run.registered|
    case Unlocking(_) => run.taken + run.got
    case Leaving => |run.registered|
    case _ => 0
  }

  /** Fewer stages, or as many and fewer steps in this one. */
  predicate Closer(was: Run, now: Run) {
    || StagesLeft(now.phase) < StagesLeft(was.phase)
    || (now.phase == was.phase && 0 <= StepsLeft(now) < StepsLeft(was))
  }

  /** Every step of a run, a failure included, brings it closer to its end, and no other run's step takes
      it further away: no run goes on for ever, and with some run always able to step, all of them end. */
  lemma EveryStepIsProgress(s: State, events: seq<Event>, event: Event, id: RunId)
    requires Initial(s) && IsHistory(s, events) && Enabled(After(s, events), event) && !event.Arrive?
    requires id in After(s, events).runs
    ensures id in Apply(After(s, events), event).runs
    ensures var was, now := After(s, events).runs[id], Apply(After(s, events), event).runs[id];
            if event.id == id then Closer(was, now) else now == was
  {
    InitialIsInv(s);
    HistoryKeepsInv(s, events);
    if event.id == id {
      StepsCountDown(After(s, events), event);
    } else {
      OthersAreUntouched(After(s, events), event, id);
    }
  }

  lemma LockStepsCountDown(s: State, event: Event)
    requires Enabled(s, event) && IsLockEvent(event) && RunOk(s.runs[event.id])
    ensures event.id in Apply(s, event).runs && Closer(s.runs[event.id], Apply(s, event).runs[event.id])
  {
    var now := Apply(s, event).runs[event.id];
    match event
    case Reference(_) => assert now.taken == s.runs[event.id].taken + 1 && now.got == s.runs[event.id].got;
    case Take(_) => assert now.got == s.runs[event.id].got + 1 && now.taken == s.runs[event.id].taken;
    case Release(_) => assert now.got == s.runs[event.id].got - 1 && now.taken == s.runs[event.id].taken;
    case Dereference(_) => assert now.taken == s.runs[event.id].taken - 1 && now.got == s.runs[event.id].got;
    case _ =>
  }

  lemma FlightStepsCountDown(s: State, event: Event)
    requires Enabled(s, event) && (event.Register? || event.Unregister?)
    ensures event.id in Apply(s, event).runs && Closer(s.runs[event.id], Apply(s, event).runs[event.id])
  {
    var was, now := s.runs[event.id], Apply(s, event).runs[event.id];
    if event.Register? {
      assert now.on - now.registered == (was.on - was.registered) - {event.address};
    }
  }

  lemma StepsCountDown(s: State, event: Event)
    requires Enabled(s, event) && !event.Arrive? && RunOk(s.runs[event.id])
    ensures event.id in Apply(s, event).runs && Closer(s.runs[event.id], Apply(s, event).runs[event.id])
  {
    if IsLockEvent(event) {
      LockStepsCountDown(s, event);
    } else if event.Register? || event.Unregister? {
      FlightStepsCountDown(s, event);
    }
  }
}
