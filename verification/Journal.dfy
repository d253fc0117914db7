/** The two journals: the in-memory one, a map in insertion order, and the durable one over a
    key-value store. The durable journal's operations are proved to be the programs of
    `MarkerProtocol`, and to refine the in-memory journal for every sequence of puts. */
module Journal {
  import opened Domain
  import opened MarkerProtocol

  // ------------------------------------------------------------------ the in-memory journal

  function Without(entries: seq<JournalEntry>, digest: Digest): seq<JournalEntry> {
    if entries == [] then []
    else (if entries[0].digest == digest then [] else [entries[0]]) + Without(entries[1..], digest)
  }

  lemma WithoutNext(kept: seq<JournalEntry>, entries: seq<JournalEntry>, i: nat, digest: Digest)
    requires i < |entries|
    ensures kept + Without(entries[i..], digest) ==
            (if entries[i].digest == digest then kept else kept + [entries[i]]) + Without(entries[i + 1..], digest)
  {
    assert entries[i..][1..] == entries[i + 1..];
  }

  function Unresolved(entries: seq<JournalEntry>): seq<JournalEntry> {
    if entries == [] then []
    else (if IsUnresolved(entries[0]) then [entries[0]] else []) + Unresolved(entries[1..])
  }

  function Find(entries: seq<JournalEntry>, digest: Digest): Option<JournalEntry> {
    if entries == [] then None
    else if entries[0].digest == digest then Some(entries[0])
    else Find(entries[1..], digest)
  }

  /** `makeMemoryUnsafe`: one shared map whose insertion order is the listing order. */
  class MemoryJournal {
    var entries: seq<JournalEntry>

    constructor ()
      ensures entries == []
    {
      entries := [];
    }

    /** Deletes the digest, then inserts the entry, which moves it to the end. */
    method Put(entry: JournalEntry)
      modifies this
      ensures entries == Without(old(entries), entry.digest) + [entry]
    {
      var kept := [];
      var i := 0;
      while i < |entries|
        invariant i <= |entries|
        invariant kept + Without(entries[i..], entry.digest) == Without(entries, entry.digest)
        invariant entries == old(entries)
      {
        WithoutNext(kept, entries, i, entry.digest);
        if entries[i].digest != entry.digest {
          kept := kept + [entries[i]];
        }
        i := i + 1;
      }
      entries := kept + [entry];
    }

    method Get(digest: Digest) returns (found: Option<JournalEntry>)
      ensures found == Find(entries, digest)
    {
      var i := 0;
      while i < |entries|
        invariant i <= |entries|
        invariant Find(entries, digest) == Find(entries[i..], digest)
      {
        if entries[i].digest == digest {
          return Some(entries[i]);
        }
        i := i + 1;
      }
      return None;
    }

    method ListUnresolved() returns (listed: seq<JournalEntry>)
      ensures listed == Unresolved(entries)
    {
      listed := [];
      var i := 0;
      while i < |entries|
        invariant i <= |entries|
        invariant listed + Unresolved(entries[i..]) == Unresolved(entries)
      {
        if IsUnresolved(entries[i]) {
          listed := listed + [entries[i]];
        }
        i := i + 1;
      }
    }
  }

  // ------------------------------------------------------------------------ listing order

  /** `oldestFirst`: by stamp, then by digest. */
  predicate Before(a: JournalEntry, b: JournalEntry) {
    a.at < b.at || (a.at == b.at && a.digest < b.digest)
  }

  predicate OldestFirst(entries: seq<JournalEntry>) {
    forall i, j :: 0 <= i < j < |entries| ==> Before(entries[i], entries[j])
  }

  /** Two oldest-first sequences of the same entries are the same sequence. */
  lemma {:induction false} OldestFirstIsUnique(a: seq<JournalEntry>, b: seq<JournalEntry>)
    requires OldestFirst(a) && OldestFirst(b)
    requires forall e :: e in a <==> e in b
    ensures a == b
  {
    assert b == [] || b[0] in b;
    if a != [] {
      assert a[0] in b && b != [] && b[0] in a;
      assert a[0] == b[0];
      forall e ensures e in a[1..] <==> e in b[1..] {
        if e in a[1..] { assert e in b && e != b[0]; }
        if e in b[1..] { assert e in a && e != a[0]; }
      }
      OldestFirstIsUnique(a[1..], b[1..]);
      assert a == [a[0]] + a[1..] && b == [b[0]] + b[1..];
    }
  }

  /** The entry goes in at its place in an oldest-first sequence. */
  method InsertOldestFirst(sorted: seq<JournalEntry>, entry: JournalEntry) returns (r: seq<JournalEntry>)
    requires OldestFirst(sorted)
    requires forall e :: e in sorted ==> e.digest != entry.digest
    ensures OldestFirst(r)
    ensures forall e :: e in r <==> e in sorted || e == entry
  {
    var i := 0;
    while i < |sorted| && Before(sorted[i], entry)
      invariant i <= |sorted|
      invariant forall k :: 0 <= k < i ==> Before(sorted[k], entry)
    {
      i := i + 1;
    }
    r := sorted[..i] + [entry] + sorted[i..];
    assert forall k :: i <= k < |sorted| ==> Before(entry, sorted[k]) by {
      forall k | i <= k < |sorted| ensures Before(entry, sorted[k]) {
        assert sorted[i] in sorted && sorted[k] in sorted;
        assert Before(entry, sorted[i]);
      }
    }
    assert sorted == sorted[..i] + sorted[i..];
  }

  // -------------------------------------------------------------------- the durable journal

  /** Every entry sits under its own digest. */
  ghost predicate Keyed(store: Store) {
    forall digest :: digest in store.entries ==> store.entries[digest].digest == digest
  }

  ghost predicate IsListing(store: Store, listed: seq<JournalEntry>) {
    OldestFirst(listed) && forall e :: e in listed <==> Listed(store, e)
  }

  /** Entries untouched; markers added over settled entries only. */
  ghost predicate OnlyHealed(before: Store, after: Store) {
    after.entries == before.entries && before.markers <= after.markers &&
    forall digest :: digest in after.markers && digest !in before.markers ==> Settled(before, digest)
  }

  /** The store's calls. Each meets the next fate of the script: it is answered, or it fails with or
      without its effect. */
  class KeyValueStore {
    var entries: map<Digest, JournalEntry>
    var markers: set<Digest>
    var fates: seq<CallFate>

    constructor (contents: Store, fates: seq<CallFate>)
      ensures Contents() == contents && this.fates == fates
    {
      entries, markers := contents.entries, contents.markers;
      this.fates := fates;
    }

    function Contents(): Store
      reads this
    {
      Store(entries, markers)
    }

    method TakeFate() returns (fate: CallFate)
      modifies this`fates
      ensures fate == NextFate(old(fates)) && fates == LaterFates(old(fates))
    {
      fate := NextFate(fates);
      fates := LaterFates(fates);
    }

    /** `keys`: the entry keys and the markers there are. */
    method ListKeys() returns (fate: CallFate, digests: set<Digest>, marked: set<Digest>)
      modifies this`fates
      ensures fate == NextFate(old(fates)) && fates == LaterFates(old(fates))
      ensures digests == entries.Keys && marked == markers
    {
      fate := TakeFate();
      digests, marked := entries.Keys, markers;
    }

    method HasMarker(digest: Digest) returns (fate: CallFate, found: bool)
      modifies this`fates
      ensures fate == NextFate(old(fates)) && fates == LaterFates(old(fates))
      ensures found == (digest in markers)
    {
      fate := TakeFate();
      found := digest in markers;
    }

    method GetEntry(digest: Digest) returns (fate: CallFate, found: Option<JournalEntry>)
      modifies this`fates
      ensures fate == NextFate(old(fates)) && fates == LaterFates(old(fates))
      ensures found == if digest in entries then Some(entries[digest]) else None
    {
      fate := TakeFate();
      found := if digest in entries then Some(entries[digest]) else None;
    }

    method SetEntry(entry: JournalEntry) returns (fate: CallFate)
      modifies this`fates, this`entries
      ensures fate == NextFate(old(fates)) && fates == LaterFates(old(fates))
      ensures entries == if fate == FailedBefore then old(entries) else old(entries)[entry.digest := entry]
    {
      fate := TakeFate();
      if fate != FailedBefore {
        entries := entries[entry.digest := entry];
      }
    }

    method RemoveEntry(digest: Digest) returns (fate: CallFate)
      modifies this`fates, this`entries
      ensures fate == NextFate(old(fates)) && fates == LaterFates(old(fates))
      ensures entries == if fate == FailedBefore then old(entries) else old(entries) - {digest}
    {
      fate := TakeFate();
      if fate != FailedBefore {
        entries := entries - {digest};
      }
    }

    method SetMarker(digest: Digest) returns (fate: CallFate)
      modifies this`fates, this`markers
      ensures fate == NextFate(old(fates)) && fates == LaterFates(old(fates))
      ensures markers == if fate == FailedBefore then old(markers) else old(markers) + {digest}
    {
      fate := TakeFate();
      if fate != FailedBefore {
        markers := markers + {digest};
      }
    }

    method RemoveMarker(digest: Digest) returns (fate: CallFate)
      modifies this`fates, this`markers
      ensures fate == NextFate(old(fates)) && fates == LaterFates(old(fates))
      ensures markers == if fate == FailedBefore then old(markers) else old(markers) - {digest}
    {
      fate := TakeFate();
      if fate != FailedBefore {
        markers := markers - {digest};
      }
    }
  }

  /** A heal that nothing disturbs marks its entry exactly when it is settled. */
  lemma HealAloneMarks(store: Store, digest: Digest)
    ensures RunAlone(Start(Heal(digest)), store, []).1 ==
            if Settled(store, digest) then store.(markers := store.markers + {digest}) else store
  {
    var op0 := Start(Heal(digest));
    var (op1, s1) := Advance(op0, store, Answered);
    if Settled(store, digest) {
      var (op2, s2) := Advance(op1, s1, Answered);
      var (op3, s3) := Advance(op2, s2, Answered);
      assert RunAlone(op2, s2, []) == (op3, s3, []);
      assert RunAlone(op1, s1, []) == (op3, s3, []);
    }
  }

  class DurableJournal {
    const kv: KeyValueStore

    constructor (kv: KeyValueStore)
      ensures this.kv == kv
    {
      this.kv := kv;
    }

    /** A `has`, and a `remove` only when the marker exists. `op` is the operation this clear is
        part of, `next` where the clear leaves it. */
    method ClearMarker(digest: Digest, ghost op: Op) returns (ok: bool, ghost next: Op)
      requires op.alive && (op.pc == FirstHas || op.pc == SecondHas) && digest == DigestOf(op.task)
      modifies kv
      ensures RunAlone(next, kv.Contents(), kv.fates) == RunAlone(op, old(kv.Contents()), old(kv.fates))
      ensures ok ==> next == op.(pc := if op.pc == FirstHas then WriteUnresolved else Finished)
      ensures !ok ==> !next.alive
    {
      next := Advance(op, kv.Contents(), NextFate(kv.fates)).0;
      var fate, found := kv.HasMarker(digest);
      if fate != Answered {
        return false, next;
      }
      if found {
        next := Advance(next, kv.Contents(), NextFate(kv.fates)).0;
        fate := kv.RemoveMarker(digest);
        return fate == Answered, next;
      }
      return true, next;
    }

    /** Writes the marker, reads the entry back, and takes the marker away unless that read confirms
        a terminal entry; a read that fails does not confirm. */
    method SettleMarker(digest: Digest, ghost op: Op) returns (ok: bool, ghost next: Op)
      requires op.alive && op.pc == WriteMarker && digest == DigestOf(op.task)
      modifies kv`markers, kv`fates
      ensures RunAlone(next, kv.Contents(), kv.fates) == RunAlone(op, old(kv.Contents()), old(kv.fates))
      ensures ok ==> next == op.(pc := Finished)
      ensures !ok ==> !next.alive
      ensures kv.markers - {digest} == old(kv.markers) - {digest}
      ensures old(kv.fates) == [] ==> kv.fates == []
    {
      next := Advance(op, kv.Contents(), NextFate(kv.fates)).0;
      var fate := kv.SetMarker(digest);
      if fate != Answered {
        return false, next;
      }
      assert RunAlone(next, kv.Contents(), kv.fates) == RunAlone(op, old(kv.Contents()), old(kv.fates));
      next := Advance(next, kv.Contents(), NextFate(kv.fates)).0;
      var again;
      fate, again := kv.GetEntry(digest);
      assert RunAlone(next, kv.Contents(), kv.fates) == RunAlone(op, old(kv.Contents()), old(kv.fates));
      var confirmed := fate == Answered && again.Some? && !IsUnresolved(again.value);
      if !confirmed {
        next := Advance(next, kv.Contents(), NextFate(kv.fates)).0;
        fate := kv.RemoveMarker(digest);
        return fate == Answered, next;
      }
      return true, next;
    }

    /** `put`: exactly the protocol's program for the entry, whatever its calls meet. */
    method Put(entry: JournalEntry) returns (ok: bool)
      modifies kv
      ensures var (op, store, fates) := RunAlone(Start(Record(entry)), old(kv.Contents()), old(kv.fates));
              kv.Contents() == store && kv.fates == fates && ok == (op.alive && op.pc == Finished)
    {
      ghost var op := Start(Record(entry));
      if IsUnresolved(entry) {
        ok, op := ClearMarker(entry.digest, op);
        if !ok {
          return;
        }
        op := Advance(op, kv.Contents(), NextFate(kv.fates)).0;
        var fate := kv.SetEntry(entry);
        if fate != Answered {
          return false;
        }
        ok, op := ClearMarker(entry.digest, op);
      } else {
        op := Advance(op, kv.Contents(), NextFate(kv.fates)).0;
        var fate := kv.SetEntry(entry);
        if fate != Answered {
          return false;
        }
        ok, op := SettleMarker(entry.digest, op);
      }
    }

    method Get(digest: Digest) returns (ok: bool, found: Option<JournalEntry>)
      modifies kv`fates
      ensures ok == (NextFate(old(kv.fates)) == Answered)
      ensures found == if digest in kv.entries then Some(kv.entries[digest]) else None
    {
      var fate;
      fate, found := kv.GetEntry(digest);
      ok := fate == Answered;
    }

    /** `listUnresolved`: reads every unmarked entry, in no particular order, marks the settled ones it
        finds, and reports the others oldest first. A failed read fails the listing; a failed
        marker write fails nothing. */
    method ListUnresolved() returns (ok: bool, listed: seq<JournalEntry>)
      requires Keyed(kv.Contents())
      modifies kv`markers, kv`fates
      ensures OnlyHealed(old(kv.Contents()), kv.Contents())
      ensures ok ==> IsListing(old(kv.Contents()), listed)
      ensures old(kv.fates) == [] ==> ok && kv.fates == []
      ensures old(kv.fates) == [] ==>
                forall digest :: digest in kv.entries && !IsUnresolved(kv.entries[digest]) ==> digest in kv.markers
    {
      var fate, digests, marked := kv.ListKeys();
      if fate != Answered {
        return false, [];
      }
      ok, listed := ReadAll(digests - marked);
    }

    /** `readUnmarked`: every entry key without a settled marker, read one after another. */
    method ReadAll(unmarked: set<Digest>) returns (ok: bool, listed: seq<JournalEntry>)
      requires Keyed(kv.Contents()) && unmarked == kv.entries.Keys - kv.markers
      modifies kv`markers, kv`fates
      ensures OnlyHealed(old(kv.Contents()), kv.Contents())
      ensures ok ==> IsListing(old(kv.Contents()), listed)
      ensures old(kv.fates) == [] ==> ok && kv.fates == []
      ensures old(kv.fates) == [] ==>
                forall digest :: digest in kv.entries && !IsUnresolved(kv.entries[digest]) ==> digest in kv.markers
    {
      ghost var before := kv.Contents();
      var todo := unmarked;
      ghost var done := {};
      ok, listed := true, [];
      while todo != {}
        invariant todo + done == before.entries.Keys - before.markers && todo !! done
        invariant OnlyHealed(before, kv.Contents()) && kv.markers !! todo
        invariant OldestFirst(listed)
        invariant forall e :: e in listed <==> Listed(before, e) && e.digest in done
        invariant ok && (old(kv.fates) == [] ==> kv.fates == [])
        invariant old(kv.fates) == [] ==> forall d :: d in done && !IsUnresolved(before.entries[d]) ==> d in kv.markers
        decreases |todo|
      {
        var digest :| digest in todo;
        var read;
        ok, read := ReadUnmarked(digest);
        if !ok {
          return;
        }
        if IsUnresolved(read) {
          listed := InsertOldestFirst(listed, read);
        }
        todo, done := todo - {digest}, done + {digest};
      }
    }

    /** Reads one unmarked entry and, when it is settled, marks it: a failure there fails nothing. */
    method ReadUnmarked(digest: Digest) returns (ok: bool, read: JournalEntry)
      requires digest in kv.entries && digest !in kv.markers
      modifies kv`markers, kv`fates
      ensures kv.markers - {digest} == old(kv.markers)
      ensures var (_, store, fates) := RunAlone(Start(Heal(digest)), old(kv.Contents()), old(kv.fates));
              kv.Contents() == store && kv.fates == fates
      ensures OnlyHealed(old(kv.Contents()), kv.Contents())
      ensures ok <==> NextFate(old(kv.fates)) == Answered
      ensures read == kv.entries[digest]
      ensures old(kv.fates) == [] ==> kv.fates == []
      ensures old(kv.fates) == [] ==> (digest in kv.markers <==> !IsUnresolved(kv.entries[digest]))
    {
      HealAloneMarks(kv.Contents(), digest);
      var fate, found := kv.GetEntry(digest);
      ok, read := fate == Answered, found.value;
      if ok && !IsUnresolved(read) {
        var _, _ := SettleMarker(digest, Op(Heal(digest), WriteMarker, true));
        assert forall d :: d != digest ==> (d in kv.markers <==> d in kv.markers - {digest});
      }
    }
  }

  // ------------------------------------------------------------ every put ends an entry's hiding

  /** The store after a put whose calls are all answered. */
  function Stored(store: Store, entry: JournalEntry): Store {
    Store(store.entries[entry.digest := entry],
          if IsUnresolved(entry) then store.markers - {entry.digest} else store.markers + {entry.digest})
  }

  /** A put with nothing interleaved, from any store at all, stores the entry, leaves its marker right
      (so a hidden digest is hidden until it is written again) and touches no other digest. */
  lemma PutAloneStores(store: Store, entry: JournalEntry)
    ensures RunAlone(Start(Record(entry)), store, []) ==
            (Op(Record(entry), Finished, true), Stored(store, entry), [])
    ensures !Hidden(Stored(store, entry), entry.digest)
  {
    var op0 := Start(Record(entry));
    var (op1, s1) := Advance(op0, store, Answered);
    if IsUnresolved(entry) {
      if entry.digest in store.markers {
        var (op2, s2) := Advance(op1, s1, Answered);
        var (op3, s3) := Advance(op2, s2, Answered);
        var (op4, s4) := Advance(op3, s3, Answered);
        assert RunAlone(op4, s4, []) == (op4, s4, []);
        assert RunAlone(op2, s2, []) == (op4, s4, []);
        assert RunAlone(op1, s1, []) == (op4, s4, []);
      } else {
        assert store.markers - {entry.digest} == store.markers;
        var (op2, s2) := Advance(op1, s1, Answered);
        var (op3, s3) := Advance(op2, s2, Answered);
        assert RunAlone(op2, s2, []) == (op3, s3, []);
        assert RunAlone(op1, s1, []) == (op3, s3, []);
      }
    } else {
      var (op2, s2) := Advance(op1, s1, Answered);
      var (op3, s3) := Advance(op2, s2, Answered);
      assert RunAlone(op2, s2, []) == (op3, s3, []);
      assert RunAlone(op1, s1, []) == (op3, s3, []);
    }
  }

  // ----------------------------------------------------------------- refinement of the memory one

  /** The in-memory map after a sequence of puts. */
  function MemoryAfter(puts: seq<JournalEntry>): seq<JournalEntry> {
    if puts == [] then []
    else
      var last := puts[|puts| - 1];
      Without(MemoryAfter(puts[..|puts| - 1]), last.digest) + [last]
  }

  /** The store after the same puts, every call answered. */
  function StoreAfter(puts: seq<JournalEntry>): Store {
    if puts == [] then Store(map[], {})
    else Stored(StoreAfter(puts[..|puts| - 1]), puts[|puts| - 1])
  }

  lemma {:induction false} WithoutKeepsOthers(entries: seq<JournalEntry>, digest: Digest)
    ensures forall e :: e in Without(entries, digest) <==> e in entries && e.digest != digest
    ensures OldestFirst(entries) ==> OldestFirst(Without(entries, digest))
  {
    if entries != [] {
      WithoutKeepsOthers(entries[1..], digest);
      assert entries == [entries[0]] + entries[1..];
      var rest := Without(entries[1..], digest);
      if OldestFirst(entries) {
        forall k | 0 <= k < |rest| ensures Before(entries[0], rest[k]) {
          assert rest[k] in entries[1..];
        }
      }
    }
  }

  lemma {:induction false} UnresolvedKeepsOrder(entries: seq<JournalEntry>)
    ensures forall e :: e in Unresolved(entries) <==> e in entries && IsUnresolved(e)
    ensures OldestFirst(entries) ==> OldestFirst(Unresolved(entries))
  {
    if entries != [] {
      UnresolvedKeepsOrder(entries[1..]);
      assert entries == [entries[0]] + entries[1..];
      var rest := Unresolved(entries[1..]);
      if OldestFirst(entries) {
        forall k | 0 <= k < |rest| ensures Before(entries[0], rest[k]) {
          assert rest[k] in entries[1..];
        }
      }
    }
  }

  /** Both journals hold the same entry for every digest, and a marker is there exactly when the
      entry is terminal. */
  ghost predicate Agree(memory: seq<JournalEntry>, store: Store) {
    && Keyed(store)
    && (forall e :: e in memory <==> e.digest in store.entries && store.entries[e.digest] == e)
    && (forall digest :: digest in store.markers <==> Settled(store, digest))
  }

  lemma {:induction false} JournalsAgree(puts: seq<JournalEntry>)
    ensures Agree(MemoryAfter(puts), StoreAfter(puts))
  {
    if puts != [] {
      var earlier, last := puts[..|puts| - 1], puts[|puts| - 1];
      JournalsAgree(earlier);
      PutKeepsAgreement(MemoryAfter(earlier), StoreAfter(earlier), last);
    }
  }

  lemma PutKeepsAgreement(memory: seq<JournalEntry>, store: Store, entry: JournalEntry)
    requires Agree(memory, store)
    ensures Agree(Without(memory, entry.digest) + [entry], Stored(store, entry))
  {
    WithoutKeepsOthers(memory, entry.digest);
  }

  lemma {:induction false} FindIsMembership(entries: seq<JournalEntry>, digest: Digest)
    ensures match Find(entries, digest)
            case Some(e) => e in entries && e.digest == digest
            case None => forall e :: e in entries ==> e.digest != digest
  {
    if entries != [] {
      FindIsMembership(entries[1..], digest);
    }
  }

  /** `get` answers the same from both journals, after any puts. */
  lemma SameAnswers(puts: seq<JournalEntry>, digest: Digest)
    ensures var store := StoreAfter(puts);
            Find(MemoryAfter(puts), digest) ==
            if digest in store.entries then Some(store.entries[digest]) else None
  {
    JournalsAgree(puts);
    FindIsMembership(MemoryAfter(puts), digest);
    var store := StoreAfter(puts);
    if digest in store.entries {
      assert store.entries[digest] in MemoryAfter(puts);
    }
  }

  // Which puts a listing still shows, and in what order.

  /** The unresolved entries of other digests. */
  function Keep(entries: seq<JournalEntry>, gone: set<Digest>): seq<JournalEntry> {
    if entries == [] then []
    else
      (if IsUnresolved(entries[0]) && entries[0].digest !in gone then [entries[0]] else []) + Keep(entries[1..], gone)
  }

  lemma {:induction false} KeepAppend(entries: seq<JournalEntry>, last: JournalEntry, gone: set<Digest>)
    ensures Keep(entries + [last], gone) ==
            Keep(entries, gone) + if IsUnresolved(last) && last.digest !in gone then [last] else []
  {
    if entries == [] {
      assert [last][1..] == [];
    } else {
      KeepAppend(entries[1..], last, gone);
      assert (entries + [last])[1..] == entries[1..] + [last];
    }
  }

  lemma {:induction false} KeepWithout(entries: seq<JournalEntry>, digest: Digest, gone: set<Digest>)
    ensures Keep(Without(entries, digest), gone) == Keep(entries, gone + {digest})
  {
    if entries != [] {
      KeepWithout(entries[1..], digest, gone);
      var rest := Without(entries[1..], digest);
      if entries[0].digest == digest {
        assert Without(entries, digest) == rest;
        assert Keep(entries, gone + {digest}) == Keep(entries[1..], gone + {digest});
      } else {
        assert Without(entries, digest) == [entries[0]] + rest;
        assert ([entries[0]] + rest)[1..] == rest;
      }
    }
  }

  lemma {:induction false} KeepIsUnresolved(entries: seq<JournalEntry>)
    ensures Keep(entries, {}) == Unresolved(entries)
  {
    if entries != [] {
      KeepIsUnresolved(entries[1..]);
    }
  }

  /** The i-th put is unresolved, and no later one replaces it. */
  predicate Lasts(puts: seq<JournalEntry>, gone: set<Digest>, i: int) {
    && 0 <= i < |puts| && IsUnresolved(puts[i]) && puts[i].digest !in gone
    && forall k :: i < k < |puts| ==> puts[k].digest != puts[i].digest
  }

  ghost predicate LastingInOrder(puts: seq<JournalEntry>, gone: set<Digest>) {
    forall i, j :: i < j && Lasts(puts, gone, i) && Lasts(puts, gone, j) ==> Before(puts[i], puts[j])
  }

  lemma LastsBefore(puts: seq<JournalEntry>, gone: set<Digest>, i: int)
    requires puts != [] && i < |puts| - 1
    ensures Lasts(puts, gone, i) <==> Lasts(puts[..|puts| - 1], gone + {puts[|puts| - 1].digest}, i)
  {
    var earlier, last := puts[..|puts| - 1], |puts| - 1;
    if 0 <= i {
      assert (forall k :: i < k < |puts| ==> puts[k].digest != puts[i].digest) <==>
             puts[last].digest != puts[i].digest && forall k :: i < k < last ==> earlier[k].digest != earlier[i].digest;
    }
  }

  lemma {:induction false} KeptAreLasting(puts: seq<JournalEntry>, gone: set<Digest>, e: JournalEntry)
    ensures e in Keep(MemoryAfter(puts), gone) <==> exists i :: Lasts(puts, gone, i) && puts[i] == e
  {
    if puts != [] {
      var earlier, last := puts[..|puts| - 1], puts[|puts| - 1];
      KeptAreLasting(earlier, gone + {last.digest}, e);
      KeepAppend(Without(MemoryAfter(earlier), last.digest), last, gone);
      KeepWithout(MemoryAfter(earlier), last.digest, gone);
      forall i | i < |puts| - 1
        ensures Lasts(puts, gone, i) <==> Lasts(earlier, gone + {last.digest}, i)
        ensures Lasts(puts, gone, i) ==> puts[i] == earlier[i]
      {
        LastsBefore(puts, gone, i);
      }
      assert Lasts(puts, gone, |puts| - 1) <==> IsUnresolved(last) && last.digest !in gone;
    }
  }

  lemma OldestFirstAppend(entries: seq<JournalEntry>, last: JournalEntry)
    ensures OldestFirst(entries + [last]) <==>
            OldestFirst(entries) && forall e :: e in entries ==> Before(e, last)
  {
    var all := entries + [last];
    if OldestFirst(all) {
      forall e | e in entries ensures Before(e, last) {
        var k: nat :| k < |entries| && entries[k] == e;
        assert all[k] == e && all[|entries|] == last;
      }
      assert forall i, j :: 0 <= i < j < |entries| ==> all[i] == entries[i] && all[j] == entries[j];
    }
  }

  lemma {:induction false} KeptInOrder(puts: seq<JournalEntry>, gone: set<Digest>)
    ensures OldestFirst(Keep(MemoryAfter(puts), gone)) <==> LastingInOrder(puts, gone)
  {
    if puts != [] {
      var earlier, last := puts[..|puts| - 1], puts[|puts| - 1];
      var more := gone + {last.digest};
      var kept := Keep(MemoryAfter(earlier), more);
      KeptInOrder(earlier, more);
      KeepAppend(Without(MemoryAfter(earlier), last.digest), last, gone);
      KeepWithout(MemoryAfter(earlier), last.digest, gone);
      OldestFirstAppend(kept, last);
      LastingStep(puts, gone);
      KeptBefore(earlier, more, last);
      assert kept + [] == kept;
    }
  }

  lemma KeptBefore(puts: seq<JournalEntry>, gone: set<Digest>, last: JournalEntry)
    ensures (forall e :: e in Keep(MemoryAfter(puts), gone) ==> Before(e, last)) <==>
            forall i :: Lasts(puts, gone, i) ==> Before(puts[i], last)
  {
    forall e ensures e in Keep(MemoryAfter(puts), gone) <==> exists i :: Lasts(puts, gone, i) && puts[i] == e {
      KeptAreLasting(puts, gone, e);
    }
    forall i | Lasts(puts, gone, i) ensures puts[i] in Keep(MemoryAfter(puts), gone) {
    }
  }

  lemma LastingStep(puts: seq<JournalEntry>, gone: set<Digest>)
    requires puts != []
    ensures var earlier, last := puts[..|puts| - 1], puts[|puts| - 1];
            var more := gone + {last.digest};
            LastingInOrder(puts, gone) <==>
              LastingInOrder(earlier, more) &&
              (IsUnresolved(last) && last.digest !in gone ==>
                 forall i :: Lasts(earlier, more, i) ==> Before(earlier[i], last))
  {
    var n := |puts| - 1;
    var earlier, last := puts[..n], puts[n];
    var more := gone + {last.digest};
    forall i | i < n ensures Lasts(puts, gone, i) <==> Lasts(earlier, more, i) {
      LastsBefore(puts, gone, i);
    }
    assert Lasts(puts, gone, n) <==> IsUnresolved(last) && last.digest !in gone;
    assert forall i :: Lasts(earlier, more, i) ==> earlier[i] == puts[i];
    if LastingInOrder(puts, gone) {
      forall i, j | i < j && Lasts(earlier, more, i) && Lasts(earlier, more, j) ensures Before(earlier[i], earlier[j]) {
        assert Lasts(puts, gone, i) && Lasts(puts, gone, j);
      }
    }
  }

  /** Of any puts, whether two unresolved ones that nothing replaces were put oldest first. */
  ghost predicate PutOldestFirst(puts: seq<JournalEntry>) {
    LastingInOrder(puts, {})
  }

  /** The listings hold the same entries after any puts, and are the same sequence exactly when the puts
      that still stand unresolved were made oldest first. */
  lemma SameListingIffOldestFirst(puts: seq<JournalEntry>, listed: seq<JournalEntry>)
    requires IsListing(StoreAfter(puts), listed)
    ensures forall e :: e in listed <==> e in Unresolved(MemoryAfter(puts))
    ensures listed == Unresolved(MemoryAfter(puts)) <==> PutOldestFirst(puts)
  {
    KeepIsUnresolved(MemoryAfter(puts));
    KeptInOrder(puts, {});
    JournalsAgree(puts);
    UnresolvedKeepsOrder(MemoryAfter(puts));
    if OldestFirst(Unresolved(MemoryAfter(puts))) {
      OldestFirstIsUnique(listed, Unresolved(MemoryAfter(puts)));
    }
  }

  predicate StampsIncrease(puts: seq<JournalEntry>) {
    forall i, j :: 0 <= i < j < |puts| ==> puts[i].at < puts[j].at
  }

  /** With strictly increasing stamps the durable listing is the in-memory one. */
  lemma SameListing(puts: seq<JournalEntry>, listed: seq<JournalEntry>)
    requires StampsIncrease(puts)
    requires IsListing(StoreAfter(puts), listed)
    ensures listed == Unresolved(MemoryAfter(puts))
  {
    SameListingIffOldestFirst(puts, listed);
  }

  lemma MemoryOfTwo(first: JournalEntry, second: JournalEntry)
    requires IsUnresolved(first) && IsUnresolved(second) && first.digest != second.digest
    ensures Unresolved(MemoryAfter([first, second])) == [first, second]
  {
    assert [first, second][..1] == [first] && [first][..0] == [];
    assert MemoryAfter([first]) == [first];
    assert Without([first], second.digest) == [first];
    assert MemoryAfter([first, second]) == [first, second];
    assert Unresolved([first, second]) == [first] + Unresolved([second]);
  }

  /** Equal stamps are enough to tell the two apart: the durable listing breaks the tie by digest,
      the in-memory one by insertion. */
  lemma EqualStampsListDifferently(first: JournalEntry, second: JournalEntry, listed: seq<JournalEntry>)
    requires IsUnresolved(first) && IsUnresolved(second)
    requires first.at == second.at && second.digest < first.digest
    requires IsListing(StoreAfter([first, second]), listed)
    ensures Unresolved(MemoryAfter([first, second])) == [first, second] && listed == [second, first]
  {
    MemoryOfTwo(first, second);
    SameListingIffOldestFirst([first, second], listed);
    assert forall e :: e in listed <==> e in [first, second];
    assert forall e :: e in [second, first] <==> e in [first, second];
    OldestFirstIsUnique(listed, [second, first]);
  }

  /** The two journals driven side by side through the same puts. */
  method Replay(puts: seq<JournalEntry>)
    returns (fromMemory: seq<JournalEntry>, ok: bool, fromStore: seq<JournalEntry>)
    requires StampsIncrease(puts)
    ensures ok && fromStore == fromMemory
    ensures forall e :: e in fromStore <==> e in MemoryAfter(puts) && IsUnresolved(e)
  {
    var memory := new MemoryJournal();
    var kv := new KeyValueStore(Store(map[], {}), []);
    var durable := new DurableJournal(kv);
    for i := 0 to |puts|
      invariant fresh(memory) && fresh(kv) && durable.kv == kv && kv.fates == []
      invariant memory.entries == MemoryAfter(puts[..i]) && kv.Contents() == StoreAfter(puts[..i])
    {
      assert puts[..i + 1][..i] == puts[..i];
      PutAloneStores(kv.Contents(), puts[i]);
      memory.Put(puts[i]);
      var _ := durable.Put(puts[i]);
    }
    assert puts[..|puts|] == puts;
    JournalsAgree(puts);
    fromMemory := memory.ListUnresolved();
    ok, fromStore := durable.ListUnresolved();
    SameListing(puts, fromStore);
    UnresolvedKeepsOrder(MemoryAfter(puts));
  }

  // --------------------------------------------------------------------------------- pruning

  /** The settled entries whose answer was recorded before the cutoff. */
  function Prunable(store: Store, cutoff: int): set<Digest> {
    set digest | digest in store.entries && Settled(store, digest) && store.entries[digest].at < cutoff
  }

  /** Whatever a prune did, finished or not: only prunable entries are gone, nothing is hidden that
      was not, and a listing reports exactly what it reported before. */
  ghost predicate PruneSafe(before: Store, after: Store, cutoff: int) {
    && (forall digest :: digest in before.entries && digest !in Prunable(before, cutoff) ==>
          digest in after.entries && after.entries[digest] == before.entries[digest])
    && (forall digest :: digest in after.entries ==>
          digest in before.entries && after.entries[digest] == before.entries[digest])
    && after.markers <= before.markers
    && (forall digest :: Hidden(after, digest) ==> Hidden(before, digest))
    && (forall e :: Listed(after, e) <==> Listed(before, e))
  }

  /** Removing prunable entries, each with its marker, and markers that stand over no entry, is safe. */
  lemma RemovalsArePruneSafe(before: Store, after: Store, cutoff: int, entries: set<Digest>, markers: set<Digest>)
    requires after.entries == before.entries - entries && after.markers == before.markers - markers
    requires entries <= markers && entries <= Prunable(before, cutoff)
    requires forall digest :: digest in markers ==> digest in Prunable(before, cutoff) || digest !in before.entries
    ensures PruneSafe(before, after, cutoff)
  {
    forall digest | Hidden(after, digest) ensures Hidden(before, digest) {
      assert digest !in entries;
    }
  }

  lemma FinishedPrune(before: Store, after: Store, cutoff: int, entries: set<Digest>)
    requires entries == Prunable(before, cutoff)
    requires after.entries == before.entries - entries
    requires after.markers == before.markers - (entries + (before.markers - before.entries.Keys))
    ensures after.markers == before.markers * after.entries.Keys
  {
  }

  /** Reads every entry before it deletes any, then removes each pruned entry's marker before the
      entry, then the markers whose entry is gone. */
  method PruneSettled(kv: KeyValueStore, cutoff: int) returns (ok: bool, count: nat)
    modifies kv
    ensures PruneSafe(old(kv.Contents()), kv.Contents(), cutoff)
    ensures ok ==> kv.entries == old(kv.entries) - Prunable(old(kv.Contents()), cutoff)
    ensures ok ==> forall digest :: digest in old(kv.entries) ==>
              (digest in kv.entries <==>
                 IsUnresolved(old(kv.entries)[digest]) || old(kv.entries)[digest].at >= cutoff)
    ensures ok ==> kv.markers == old(kv.markers) * kv.entries.Keys
    ensures ok ==> count == |Prunable(old(kv.Contents()), cutoff)|
    ensures old(kv.fates) == [] ==> ok
  {
    ghost var before := kv.Contents();
    var fate, digests, marked := kv.ListKeys();
    if fate != Answered {
      return false, 0;
    }
    var settled;
    ok, settled := ReadSettled(kv, digests, cutoff);
    count := |settled|;
    assert kv.Contents() == before;
    if ok {
      ok := RemoveAll(kv, settled, marked - digests, cutoff);
    }
  }

  method RemoveAll(kv: KeyValueStore, settled: set<Digest>, orphans: set<Digest>, ghost cutoff: int) returns (ok: bool)
    requires settled == Prunable(kv.Contents(), cutoff) && orphans == kv.markers - kv.entries.Keys
    modifies kv
    ensures PruneSafe(old(kv.Contents()), kv.Contents(), cutoff)
    ensures ok ==> kv.entries == old(kv.entries) - settled && kv.markers == old(kv.markers) * kv.entries.Keys
    ensures old(kv.fates) == [] ==> ok
  {
    ghost var before := kv.Contents();
    ghost var entries, markers, gone;
    ok, entries, markers := RemovePruned(kv, settled);
    if !ok {
      RemovalsArePruneSafe(before, kv.Contents(), cutoff, entries, markers);
      return;
    }
    ok, gone := RemoveOrphans(kv, orphans);
    assert kv.markers == before.markers - (markers + gone);
    if ok {
      FinishedPrune(before, kv.Contents(), cutoff, entries);
    }
    RemovalsArePruneSafe(before, kv.Contents(), cutoff, entries, markers + gone);
  }

  method RemovePruned(kv: KeyValueStore, settled: set<Digest>)
    returns (ok: bool, ghost entries: set<Digest>, ghost markers: set<Digest>)
    modifies kv
    ensures entries <= markers <= settled
    ensures kv.entries == old(kv.entries) - entries && kv.markers == old(kv.markers) - markers
    ensures ok ==> entries == markers == settled
    ensures old(kv.fates) == [] ==> ok && kv.fates == []
  {
    var todo := settled;
    ok, entries, markers := true, {}, {};
    while todo != {}
      invariant todo <= settled && entries == markers == settled - todo
      invariant ok && (old(kv.fates) == [] ==> kv.fates == [])
      invariant kv.entries == old(kv.entries) - entries && kv.markers == old(kv.markers) - markers
      decreases |todo|
    {
      var digest :| digest in todo;
      var fate := kv.RemoveMarker(digest);
      if fate != FailedBefore {
        markers := markers + {digest};
      }
      if fate != Answered {
        return false, entries, markers;
      }
      fate := kv.RemoveEntry(digest);
      if fate != FailedBefore {
        entries := entries + {digest};
      }
      if fate != Answered {
        return false, entries, markers;
      }
      todo := todo - {digest};
    }
  }

  method RemoveOrphans(kv: KeyValueStore, orphans: set<Digest>) returns (ok: bool, ghost markers: set<Digest>)
    modifies kv`markers, kv`fates
    ensures markers <= orphans && kv.markers == old(kv.markers) - markers
    ensures ok ==> markers == orphans
    ensures old(kv.fates) == [] ==> ok && kv.fates == []
  {
    var todo := orphans;
    ok, markers := true, {};
    while todo != {}
      invariant todo <= orphans && markers == orphans - todo
      invariant ok && (old(kv.fates) == [] ==> kv.fates == [])
      invariant kv.markers == old(kv.markers) - markers
      decreases |todo|
    {
      var digest :| digest in todo;
      var fate := kv.RemoveMarker(digest);
      if fate != FailedBefore {
        markers := markers + {digest};
      }
      if fate != Answered {
        return false, markers;
      }
      todo := todo - {digest};
    }
  }

  method ReadSettled(kv: KeyValueStore, digests: set<Digest>, cutoff: int) returns (ok: bool, settled: set<Digest>)
    requires digests == kv.entries.Keys
    modifies kv`fates
    ensures ok ==> settled == Prunable(kv.Contents(), cutoff)
    ensures old(kv.fates) == [] ==> ok && kv.fates == []
  {
    var todo := digests;
    ok, settled := true, {};
    while todo != {}
      invariant todo <= kv.entries.Keys && ok && (old(kv.fates) == [] ==> kv.fates == [])
      invariant forall d :: d in settled <==> d in Prunable(kv.Contents(), cutoff) && d !in todo
      decreases |todo|
    {
      var digest :| digest in todo;
      var fate, read := kv.GetEntry(digest);
      if fate != Answered {
        return false, settled;
      }
      if !IsUnresolved(read.value) && read.value.at < cutoff {
        settled := settled + {digest};
      }
      todo := todo - {digest};
    }
  }
}
