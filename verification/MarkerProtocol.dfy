/** The settled-marker protocol of the durable journal, one key-value call at a time.

    A store holds `entry:<digest>` keys and `settled:<digest>` markers. A marker hides its entry
    from a listing, so it must never be left over an entry that is not terminal. The interface has no
    compare-and-set: every operation is a program over single `has` / `get` / `set` / `remove`
    calls, any number of them interleave freely, a call may fail with or without its effect, and
    an operation may die before any of its calls. */
module MarkerProtocol {
  import opened Domain

  datatype Store = Store(entries: map<Digest, JournalEntry>, markers: set<Digest>)

  predicate Settled(store: Store, digest: Digest) {
    digest in store.entries && !IsUnresolved(store.entries[digest])
  }

  /** An entry a listing would miss: marked, and not terminal. */
  predicate Hidden(store: Store, digest: Digest) {
    digest in store.markers && !Settled(store, digest)
  }

  /** What a listing reports: every unresolved entry with no marker. */
  predicate Listed(store: Store, entry: JournalEntry) {
    entry.digest in store.entries && store.entries[entry.digest] == entry &&
    IsUnresolved(entry) && entry.digest !in store.markers
  }

  /** What `Record` puts is an entry; a `Heal` is what a listing does about one unmarked digest. */
  datatype Task = Record(entry: JournalEntry) | Heal(digest: Digest)

  function DigestOf(task: Task): Digest {
    match task
    case Record(entry) => entry.digest
    case Heal(digest) => digest
  }

  /** The call an operation makes next. */
  datatype Pc =
    | FirstHas | FirstRemove | WriteUnresolved | SecondHas | SecondRemove // an unresolved put
    | WriteTerminal                                                       // a terminal put
    | ScanRead                                                            // a listing's read
    | WriteMarker | Reread | TakeBack                                     // settling a marker
    | Finished

  datatype Op = Op(task: Task, pc: Pc, alive: bool)

  function Start(task: Task): Op {
    Op(task,
       match task
       case Record(entry) => if IsUnresolved(entry) then FirstHas else WriteTerminal
       case Heal(_) => ScanRead,
       true)
  }

  /** How one call went: answered, or failed before or after taking effect. */
  datatype CallFate = Answered | FailedBefore | FailedAfter

  predicate Active(op: Op) {
    op.alive && op.pc != Finished
  }

  /** The next call of an active operation: the operation and the store after it. */
  function Advance(op: Op, store: Store, fate: CallFate): (Op, Store)
    requires Active(op)
  {
    var digest := DigestOf(op.task);
    var dead := op.(alive := false);
    match op.pc
    case FirstHas =>
      if fate != Answered then (dead, store)
      else (op.(pc := if digest in store.markers then FirstRemove else WriteUnresolved), store)
    case FirstRemove =>
      Effect(op, WriteUnresolved, store, store.(markers := store.markers - {digest}), fate)
    case WriteUnresolved =>
      Effect(op, SecondHas, store, Written(op, store), fate)
    case SecondHas =>
      if fate != Answered then (dead, store)
      else (op.(pc := if digest in store.markers then SecondRemove else Finished), store)
    case SecondRemove =>
      Effect(op, Finished, store, store.(markers := store.markers - {digest}), fate)
    case WriteTerminal =>
      Effect(op, WriteMarker, store, Written(op, store), fate)
    case ScanRead =>
      if fate != Answered then (dead, store)
      else (op.(pc := if Settled(store, digest) then WriteMarker else Finished), store)
    case WriteMarker =>
      Effect(op, Reread, store, store.(markers := store.markers + {digest}), fate)
    case Reread =>
      // A read that fails does not confirm, it does not stop the operation.
      (op.(pc := if fate == Answered && Settled(store, digest) then Finished else TakeBack), store)
    case TakeBack =>
      Effect(op, Finished, store, store.(markers := store.markers - {digest}), fate)
  }

  function Written(op: Op, store: Store): Store {
    if op.task.Record? then store.(entries := store.entries[op.task.entry.digest := op.task.entry]) else store
  }

  /** A writing call: a failure kills the operation, at `next` when the write landed anyway. */
  function Effect(op: Op, next: Pc, before: Store, after: Store, fate: CallFate): (Op, Store) {
    match fate
    case Answered => (op.(pc := next), after)
    case FailedBefore => (op.(alive := false), before)
    case FailedAfter => (op.(pc := next, alive := false), after)
  }

  /** The operation still has to clear or confirm a marker: it has written over an entry a marker
      may hide, or has written a marker it has not confirmed. Dying does not cancel the debt. */
  predicate OwesClear(op: Op) {
    op.pc == SecondHas || op.pc == SecondRemove || op.pc == Reread || op.pc == TakeBack
  }

  // --------------------------------------------------------------- any number of operations

  datatype System = System(store: Store, ops: map<nat, Op>)

  datatype Event =
    | Begin(id: nat, task: Task)
    | Call(id: nat, fate: CallFate)
    | Die(id: nat)

  predicate Enabled(s: System, event: Event) {
    match event
    case Begin(id, _) => id !in s.ops
    case Call(id, _) => id in s.ops && Active(s.ops[id])
    case Die(id) => id in s.ops && Active(s.ops[id])
  }

  function Apply(s: System, event: Event): System
    requires Enabled(s, event)
  {
    match event
    case Begin(id, task) => s.(ops := s.ops[id := Start(task)])
    case Call(id, fate) =>
      var (op, store) := Advance(s.ops[id], s.store, fate);
      System(store, s.ops[id := op])
    case Die(id) => s.(ops := s.ops[id := s.ops[id].(alive := false)])
  }

  /** `run` is a run of the protocol: every event is enabled where it happens. */
  predicate IsRun(s: System, run: seq<Event>)
    decreases |run|
  {
    run == [] || (Enabled(s, run[0]) && IsRun(Apply(s, run[0]), run[1..]))
  }

  function After(s: System, run: seq<Event>): System
    requires IsRun(s, run)
    decreases |run|
  {
    if run == [] then s else After(Apply(s, run[0]), run[1..])
  }

  /** A store whose markers are all right, with nothing running over it. */
  predicate Initial(s: System) {
    s.ops == map[] && forall digest :: digest in s.store.markers ==> Settled(s.store, digest)
  }

  predicate Debtor(s: System, id: nat, digest: Digest) {
    id in s.ops && DigestOf(s.ops[id].task) == digest && OwesClear(s.ops[id])
  }

  /** Whenever a marker hides an entry, some operation on that digest owes a clear. */
  ghost predicate EveryHiddenEntryIsOwed(s: System) {
    forall digest :: Hidden(s.store, digest) ==> exists id :: Debtor(s, id, digest)
  }

  /** Facts about each operation that make its own calls sound. */
  predicate WellFormed(op: Op) {
    match op.pc
    case FirstHas | FirstRemove | WriteUnresolved | SecondHas | SecondRemove =>
      op.task.Record? && IsUnresolved(op.task.entry)
    case WriteTerminal => op.task.Record? && !IsUnresolved(op.task.entry)
    case ScanRead => op.task.Heal?
    case WriteMarker | Reread | TakeBack => op.task.Heal? || !IsUnresolved(op.task.entry)
    case Finished => true
  }

  predicate AllWellFormed(s: System) {
    forall id :: id in s.ops ==> WellFormed(s.ops[id])
  }

  lemma CallKeepsDebt(s: System, id: nat, fate: CallFate)
    requires Enabled(s, Call(id, fate)) && AllWellFormed(s) && EveryHiddenEntryIsOwed(s)
    ensures EveryHiddenEntryIsOwed(Apply(s, Call(id, fate)))
  {
    var s' := Apply(s, Call(id, fate));
    var own := DigestOf(s.ops[id].task);
    forall digest | Hidden(s'.store, digest) ensures exists i :: Debtor(s', i, digest) {
      if digest == own && OwesClear(s'.ops[id]) {
        assert Debtor(s', id, digest);
      } else {
        // Not this operation's doing: the entry was hidden before the call as well.
        assert Hidden(s.store, digest);
        var debtor :| Debtor(s, debtor, digest);
        assert debtor != id;
        assert Debtor(s', debtor, digest);
      }
    }
  }

  lemma EventKeepsDebt(s: System, event: Event)
    requires Enabled(s, event) && AllWellFormed(s) && EveryHiddenEntryIsOwed(s)
    ensures AllWellFormed(Apply(s, event)) && EveryHiddenEntryIsOwed(Apply(s, event))
  {
    match event
    case Call(id, fate) => CallKeepsDebt(s, id, fate);
    case _ =>
      var s' := Apply(s, event);
      forall digest | Hidden(s'.store, digest) ensures exists i :: Debtor(s', i, digest) {
        var debtor :| Debtor(s, debtor, digest);
        assert Debtor(s', debtor, digest);
      }
  }

  /** In every interleaving, with failures and deaths anywhere, a hidden entry is always owed. */
  lemma {:induction false} HiddenEntriesAreAlwaysOwed(s: System, run: seq<Event>)
    requires AllWellFormed(s) && EveryHiddenEntryIsOwed(s) && IsRun(s, run)
    ensures EveryHiddenEntryIsOwed(After(s, run))
    decreases |run|
  {
    if run != [] {
      EventKeepsDebt(s, run[0]);
      HiddenEntriesAreAlwaysOwed(Apply(s, run[0]), run[1..]);
    }
  }

  /** Once every operation of a run has completed, or died owing nothing, no entry is hidden: a listing of
      the store is exactly its unresolved entries. */
  lemma CompletedRunsHideNothing(s: System, run: seq<Event>)
    requires Initial(s) && IsRun(s, run)
    requires forall id :: id in After(s, run).ops ==> !OwesClear(After(s, run).ops[id])
    ensures var store := After(s, run).store;
            && (forall digest :: !Hidden(store, digest))
            && forall entry :: Listed(store, entry) <==>
                 IsUnresolved(entry) && entry.digest in store.entries && store.entries[entry.digest] == entry
  {
    HiddenEntriesAreAlwaysOwed(s, run);
    var s' := After(s, run);
    assert forall digest, id :: !Debtor(s', id, digest);
    assert forall digest :: !Hidden(s'.store, digest);
    forall entry | IsUnresolved(entry) && entry.digest in s'.store.entries && s'.store.entries[entry.digest] == entry
      ensures Listed(s'.store, entry)
    {
      assert !Hidden(s'.store, entry.digest);
    }
  }

  // --------------------------------------------------------------------------- one writer

  /** Operations never overlap: each begins only when the others have completed or died. */
  predicate OneAtATime(s: System, run: seq<Event>)
    requires IsRun(s, run)
    decreases |run|
  {
    run == [] ||
    ((run[0].Begin? ==> forall id :: id in s.ops ==> !Active(s.ops[id])) &&
     OneAtATime(Apply(s, run[0]), run[1..]))
  }

  /** What the one running operation knows about the store it alone writes. */
  predicate Alone(op: Op, store: Store) {
    var digest := DigestOf(op.task);
    match op.pc
    case WriteUnresolved | SecondHas => digest !in store.markers
    case SecondRemove => false
    case WriteMarker | Reread => Settled(store, digest)
    case _ => true
  }

  ghost predicate SingleWriter(s: System) {
    && AllWellFormed(s)
    && (forall digest :: !Hidden(s.store, digest))
    && (forall i, j :: i in s.ops && j in s.ops && Active(s.ops[i]) && Active(s.ops[j]) ==> i == j)
    && (forall id :: id in s.ops && Active(s.ops[id]) ==> Alone(s.ops[id], s.store))
  }

  lemma EventKeepsSingleWriter(s: System, event: Event)
    requires Enabled(s, event) && SingleWriter(s)
    requires event.Begin? ==> forall id :: id in s.ops ==> !Active(s.ops[id])
    ensures SingleWriter(Apply(s, event))
  {
    var s' := Apply(s, event);
    match event {
      case Call(id, fate) =>
        var (op, store) := Advance(s.ops[id], s.store, fate);
        assert forall digest :: digest != DigestOf(op.task) && Hidden(store, digest) ==> Hidden(s.store, digest);
        assert !Hidden(store, DigestOf(op.task));
      case _ =>
    }
  }

  /** With one writer nothing is hidden at any step, so a crash anywhere hides nothing. */
  lemma OneWriterNeverHides(s: System, run: seq<Event>)
    requires Initial(s) && IsRun(s, run) && OneAtATime(s, run)
    ensures forall digest :: !Hidden(After(s, run).store, digest)
  {
    StaysSingleWriter(s, run);
  }

  lemma {:induction false} StaysSingleWriter(s: System, run: seq<Event>)
    requires SingleWriter(s) && IsRun(s, run) && OneAtATime(s, run)
    ensures SingleWriter(After(s, run))
    decreases |run|
  {
    if run != [] {
      EventKeepsSingleWriter(s, run[0]);
      StaysSingleWriter(Apply(s, run[0]), run[1..]);
    }
  }

  // ------------------------------------------------------------------- one operation, alone

  function NextFate(fates: seq<CallFate>): CallFate {
    if fates == [] then Answered else fates[0]
  }

  function LaterFates(fates: seq<CallFate>): seq<CallFate> {
    if fates == [] then [] else fates[1..]
  }

  function CallsLeft(pc: Pc): nat {
    match pc
    case FirstHas => 5
    case FirstRemove => 4
    case WriteUnresolved => 3
    case SecondHas => 2
    case SecondRemove => 1
    case WriteTerminal => 4
    case ScanRead => 4
    case WriteMarker => 3
    case Reread => 2
    case TakeBack => 1
    case Finished => 0
  }

  /** An operation run to its end with nothing interleaved; its calls meet `fates` in turn, and
      every later call is answered. */
  function RunAlone(op: Op, store: Store, fates: seq<CallFate>): (Op, Store, seq<CallFate>)
    decreases CallsLeft(op.pc), op.alive
  {
    if !Active(op) then (op, store, fates)
    else
      var (next, after) := Advance(op, store, NextFate(fates));
      RunAlone(next, after, LaterFates(fates))
  }

  // ------------------------------------------------------------------- the documented window

  lemma Precede(s: System, event: Event, run: seq<Event>)
    requires Enabled(s, event) && IsRun(Apply(s, event), run)
    ensures IsRun(s, [event] + run) && After(s, [event] + run) == After(Apply(s, event), run)
  {
    assert ([event] + run)[1..] == run;
  }

  function Both(settling: Op, putting: Op): map<nat, Op> {
    map[0 := settling, 1 := putting]
  }

  /** What the settling put has done when the other writer comes. */
  function Interrupted(done: JournalEntry): Op {
    Op(Record(done), WriteMarker, true)
  }

  function PutSoFar(resent: JournalEntry, pc: Pc): Op {
    Op(Record(resent), pc, true)
  }

  /** The settling put has written its entry, and the other writer begins. */
  function BeforeOther(done: JournalEntry, resent: JournalEntry): System {
    System(Store(map[done.digest := done], {}), Both(Interrupted(done), PutSoFar(resent, FirstHas)))
  }

  /** The other writer has put its entry and seen no marker. */
  function AfterOther(done: JournalEntry, resent: JournalEntry): System {
    System(Store(map[done.digest := resent], {}), Both(Interrupted(done), PutSoFar(resent, Finished)))
  }

  lemma EntryIsWritten(done: JournalEntry, resent: JournalEntry, rest: seq<Event>)
    requires !IsUnresolved(done) && IsUnresolved(resent)
    requires IsRun(BeforeOther(done, resent), rest)
    ensures var s := System(Store(map[], {}), map[]);
            var run := [Begin(0, Record(done))] + ([Call(0, Answered)] + ([Begin(1, Record(resent))] + rest));
            && IsRun(s, run)
            && After(s, run) == After(BeforeOther(done, resent), rest)
  {
    var s0 := System(Store(map[], {}), map[]);
    var s1 := System(Store(map[], {}), map[0 := Op(Record(done), WriteTerminal, true)]);
    var s2 := System(Store(map[done.digest := done], {}), map[0 := Interrupted(done)]);
    var s3 := System(s2.store, Both(Interrupted(done), PutSoFar(resent, FirstHas)));
    assert Apply(s2, Begin(1, Record(resent))) == s3;
    assert Apply(s1, Call(0, Answered)) == s2;
    assert Apply(s0, Begin(0, Record(done))) == s1;
    Precede(s2, Begin(1, Record(resent)), rest);
    Precede(s1, Call(0, Answered), [Begin(1, Record(resent))] + rest);
    Precede(s0, Begin(0, Record(done)), [Call(0, Answered)] + ([Begin(1, Record(resent))] + rest));
  }

  lemma OtherPutsWholly(done: JournalEntry, resent: JournalEntry, rest: seq<Event>)
    requires done.digest == resent.digest && IsUnresolved(resent)
    requires IsRun(AfterOther(done, resent), rest)
    ensures var s := BeforeOther(done, resent);
            var run := [Call(1, Answered)] + ([Call(1, Answered)] + ([Call(1, Answered)] + rest));
            && IsRun(s, run)
            && After(s, run) == After(AfterOther(done, resent), rest)
  {
    var held := Interrupted(done);
    var before, after := Store(map[done.digest := done], {}), Store(map[done.digest := resent], {});
    var s0 := System(before, Both(held, PutSoFar(resent, FirstHas)));
    var s1 := System(before, Both(held, PutSoFar(resent, WriteUnresolved)));
    var s2 := System(after, Both(held, PutSoFar(resent, SecondHas)));
    var s3 := System(after, Both(held, PutSoFar(resent, Finished)));
    assert Apply(s0, Call(1, Answered)) == s1;
    assert Apply(s1, Call(1, Answered)) == s2;
    assert Apply(s2, Call(1, Answered)) == s3;
    Precede(s2, Call(1, Answered), rest);
    Precede(s1, Call(1, Answered), [Call(1, Answered)] + rest);
    Precede(s0, Call(1, Answered), [Call(1, Answered)] + ([Call(1, Answered)] + rest));
  }

  lemma MarksAndDies(done: JournalEntry, resent: JournalEntry)
    requires done.digest == resent.digest && IsUnresolved(resent)
    ensures var s := AfterOther(done, resent);
            && IsRun(s, [Call(0, Answered)] + [Die(0)])
            && After(s, [Call(0, Answered)] + [Die(0)]) ==
               System(Store(map[done.digest := resent], {done.digest}),
                      Both(Op(Record(done), Reread, false), PutSoFar(resent, Finished)))
  {
    var finished := PutSoFar(resent, Finished);
    var s0 := System(Store(map[done.digest := resent], {}), Both(Interrupted(done), finished));
    var s1 := System(Store(map[done.digest := resent], {done.digest}), Both(Op(Record(done), Reread, true), finished));
    assert Apply(s0, Call(0, Answered)) == s1;
    assert Apply(s1, Die(0)) == System(s1.store, Both(Op(Record(done), Reread, false), finished));
    Precede(s1, Die(0), []);
    Precede(s0, Call(0, Answered), [Die(0)]);
  }

  /** The one crash window: a settling put dies between its marker and its re-read, while the other
      writer's whole put of an unresolved entry landed between the two writes. Every operation has then
      completed or died, and the entry is hidden. */
  lemma CrashWindowHidesAnEntry(done: JournalEntry, resent: JournalEntry)
    requires done.digest == resent.digest && !IsUnresolved(done) && IsUnresolved(resent)
    ensures var s := System(Store(map[], {}), map[]);
            var run := [Begin(0, Record(done)), Call(0, Answered),
                        Begin(1, Record(resent)), Call(1, Answered), Call(1, Answered), Call(1, Answered),
                        Call(0, Answered), Die(0)];
            Initial(s) && IsRun(s, run) &&
            Hidden(After(s, run).store, resent.digest) &&
            forall id :: id in After(s, run).ops ==> !Active(After(s, run).ops[id])
  {
    var last := [Call(0, Answered)] + [Die(0)];
    var put := [Call(1, Answered)] + ([Call(1, Answered)] + ([Call(1, Answered)] + last));
    MarksAndDies(done, resent);
    OtherPutsWholly(done, resent, last);
    EntryIsWritten(done, resent, put);
    assert [Begin(0, Record(done))] + ([Call(0, Answered)] + ([Begin(1, Record(resent))] + put)) ==
           [Begin(0, Record(done)), Call(0, Answered),
            Begin(1, Record(resent)), Call(1, Answered), Call(1, Answered), Call(1, Answered),
            Call(0, Answered), Die(0)];
  }
}
