/** The reference-counted registry of semaphores, one per address: a value that the machine in
    `SenderLocks` steps through, and the class of shared maps it stands for. */
module Registry {
  import opened Domain

  type RunId = nat
  type SemaphoreId = nat

  /** A live semaphore of one permit: whose it is, how many references there are to it, and which run has
      the permit. `users` is bookkeeping the program does not have: whose the references are. */
  datatype Permits = Permits(address: Address, refs: nat, users: set<RunId>, holder: Option<RunId>)

  /** `entries` is the map the program looks an address up in; `permits` are the semaphores some scope
      can still reach, whether or not the map names them. */
  datatype Registry = Registry(
    entries: map<Address, SemaphoreId>, permits: map<SemaphoreId, Permits>, nextId: SemaphoreId)

  /** The entries count their references and are distinct, and nothing else is alive. */
  ghost predicate Ok(r: Registry) {
    && (forall a :: a in r.entries ==>
          && r.entries[a] in r.permits && r.permits[r.entries[a]].address == a
          && 0 < r.permits[r.entries[a]].refs == |r.permits[r.entries[a]].users|)
    && (forall sem :: sem in r.permits ==>
          sem < r.nextId && r.permits[sem].address in r.entries && r.entries[r.permits[sem].address] == sem)
  }

  function Users(r: Registry, a: Address): set<RunId> {
    if a in r.entries && r.entries[a] in r.permits then r.permits[r.entries[a]].users else {}
  }

  /** Who holds the lock of an address, if anyone does. */
  function HolderOf(r: Registry, a: Address): Option<RunId> {
    if a in r.entries && r.entries[a] in r.permits then r.permits[r.entries[a]].holder else None
  }

  /** `permitsOf`: a reference to the address's entry, created on first use. */
  function Acquire(r: Registry, a: Address, id: RunId): (Registry, SemaphoreId) {
    if a in r.entries && r.entries[a] in r.permits then
      var sem := r.entries[a];
      var entry := r.permits[sem];
      (r.(permits := r.permits[sem := entry.(refs := entry.refs + 1, users := entry.users + {id})]), sem)
    else
      (Registry(r.entries[a := r.nextId], r.permits[r.nextId := Permits(a, 1, {id}, None)], r.nextId + 1), r.nextId)
  }

  /** The scope closing: the last reference out deletes the entry, if the map still has it. */
  function Release(r: Registry, a: Address, sem: SemaphoreId, id: RunId): Registry {
    if sem !in r.permits then r
    else
      var entry := r.permits[sem];
      if entry.refs > 1 then
        r.(permits := r.permits[sem := entry.(refs := entry.refs - 1, users := entry.users - {id})])
      else
        r.(permits := r.permits - {sem},
           entries := if a in r.entries && r.entries[a] == sem then r.entries - {a} else r.entries)
  }

  /** The permit of one semaphore changes hands. */
  function Pass(r: Registry, sem: SemaphoreId, holder: Option<RunId>): Registry {
    if sem in r.permits then r.(permits := r.permits[sem := r.permits[sem].(holder := holder)]) else r
  }

  lemma AcquireKeepsOthers(r: Registry, a: Address, id: RunId, b: Address)
    requires Ok(r) && b != a
    ensures var r' := Acquire(r, a, id).0;
            && (b in r'.entries <==> b in r.entries) && (b in r.entries ==> r'.entries[b] == r.entries[b])
            && Users(r', b) == Users(r, b) && HolderOf(r', b) == HolderOf(r, b)
  {
  }

  lemma AcquireKeepsOk(r: Registry, a: Address, id: RunId)
    requires Ok(r) && id !in Users(r, a)
    ensures Ok(Acquire(r, a, id).0)
  {
  }

  /** A reference is always to the one live semaphore of its address: acquiring either shares it or,
      when nobody references it, makes it. */
  lemma AcquireShares(r: Registry, a: Address, id: RunId)
    requires Ok(r) && id !in Users(r, a)
    ensures var (r', sem) := Acquire(r, a, id);
            && Ok(r') && a in r'.entries && r'.entries[a] == sem && sem in r'.permits
            && Users(r', a) == Users(r, a) + {id} && HolderOf(r', a) == HolderOf(r, a)
            && (Users(r, a) != {} <==> a in r.entries)
            && (a in r.entries ==> r.entries[a] == sem)
            && forall b :: b != a ==>
                 (b in r'.entries <==> b in r.entries) && (b in r.entries ==> r'.entries[b] == r.entries[b]) &&
                 Users(r', b) == Users(r, b) && HolderOf(r', b) == HolderOf(r, b)
  {
    AcquireKeepsOk(r, a, id);
    if a in r.entries {
      assert |Users(r, a)| > 0;
    }
    var r' := Acquire(r, a, id).0;
    forall b | b != a
      ensures (b in r'.entries <==> b in r.entries) && (b in r.entries ==> r'.entries[b] == r.entries[b])
      ensures Users(r', b) == Users(r, b) && HolderOf(r', b) == HolderOf(r, b)
    {
      AcquireKeepsOthers(r, a, id, b);
    }
  }

  /** Releasing the last reference deletes the entry, releasing any other leaves it as it is. */
  lemma ReleaseDrops(r: Registry, a: Address, sem: SemaphoreId, id: RunId)
    requires Ok(r) && id in Users(r, a) && r.entries[a] == sem
    ensures var r' := Release(r, a, sem, id);
            && Ok(r')
            && (a in r'.entries <==> Users(r, a) != {id}) && (a in r'.entries ==> r'.entries[a] == sem)
            && Users(r', a) == Users(r, a) - {id}
            && (a in r'.entries ==> HolderOf(r', a) == HolderOf(r, a))
            && forall b :: b != a ==>
                 (b in r'.entries <==> b in r.entries) && (b in r.entries ==> r'.entries[b] == r.entries[b]) &&
                 Users(r', b) == Users(r, b) && HolderOf(r', b) == HolderOf(r, b)
  {
    var users := Users(r, a);
    assert users == (users - {id}) + {id};
    if users == {id} {
      assert |users| == 1;
    } else {
      assert users - {id} != {};
      assert |users - {id}| > 0;
    }
  }

  lemma PassKeeps(r: Registry, a: Address, holder: Option<RunId>)
    requires Ok(r) && a in r.entries
    ensures var r' := Pass(r, r.entries[a], holder);
            && Ok(r') && r'.entries == r.entries && HolderOf(r', a) == holder
            && (forall b :: Users(r', b) == Users(r, b))
            && (forall b :: b != a ==> HolderOf(r', b) == HolderOf(r, b))
  {
  }

  /** How many references each address has: what the shared map of the program shows of the registry. */
  function RefsOf(r: Registry): map<Address, nat> {
    map a | a in r.entries && r.entries[a] in r.permits :: r.permits[r.entries[a]].refs
  }

  function OneMore(refs: map<Address, nat>, a: Address): map<Address, nat> {
    refs[a := (if a in refs then refs[a] else 0) + 1]
  }

  function OneLess(refs: map<Address, nat>, a: Address): map<Address, nat>
    requires a in refs && refs[a] > 0
  {
    if refs[a] == 1 then refs - {a} else refs[a := refs[a] - 1]
  }

  lemma AcquireCountsAt(r: Registry, a: Address, id: RunId, b: Address)
    requires Ok(r)
    ensures CountsOneMore(RefsOf(r), RefsOf(Acquire(r, a, id).0), a, b)
  {
    assert b in r.entries ==> r.entries[b] in r.permits && r.permits[r.entries[b]].address == b;
  }

  /** One reference more, address by address. */
  predicate CountsOneMore(before: map<Address, nat>, after: map<Address, nat>, a: Address, b: Address) {
    && (b in after <==> b == a || b in before)
    && (b in after ==> after[b] == (if b in before then before[b] else 0) + if b == a then 1 else 0)
  }

  lemma IsOneMore(before: map<Address, nat>, after: map<Address, nat>, a: Address)
    requires forall b :: CountsOneMore(before, after, a, b)
    ensures after == OneMore(before, a)
  {
    assert CountsOneMore(before, after, a, a);
    forall b
      ensures b in after <==> b in OneMore(before, a)
      ensures b in after ==> after[b] == OneMore(before, a)[b]
    {
      assert CountsOneMore(before, after, a, b);
    }
  }

  lemma AcquireCounts(r: Registry, a: Address, id: RunId)
    requires Ok(r)
    ensures RefsOf(Acquire(r, a, id).0) == OneMore(RefsOf(r), a)
  {
    forall b ensures CountsOneMore(RefsOf(r), RefsOf(Acquire(r, a, id).0), a, b) {
      AcquireCountsAt(r, a, id, b);
    }
    IsOneMore(RefsOf(r), RefsOf(Acquire(r, a, id).0), a);
  }

  lemma ReleaseCounts(r: Registry, a: Address, id: RunId)
    requires Ok(r) && id in Users(r, a)
    ensures a in RefsOf(r) && RefsOf(r)[a] > 0
    ensures RefsOf(Release(r, a, r.entries[a], id)) == OneLess(RefsOf(r), a)
  {
    var r' := Release(r, a, r.entries[a], id);
    forall b | b in r.entries && b != a
      ensures r.entries[b] in r'.permits && r'.permits[r.entries[b]] == r.permits[r.entries[b]]
    {
      assert r.permits[r.entries[b]].address == b;
    }
  }

  /** A semaphore shared by everyone who references its address. */
  class SharedPermits {
    var refs: nat

    constructor ()
      ensures refs == 0
    {
      refs := 0;
    }
  }

  /** The registry as the program has it: one shared map whose entries are updated in place. It stands for
      any registry value with these references. */
  class SharedRegistry {
    var entries: map<Address, SharedPermits>
    ghost var refs: map<Address, nat>

    ghost predicate Valid()
      reads this, entries.Values
    {
      && entries.Keys == refs.Keys
      && (forall a :: a in entries ==> 0 < entries[a].refs == refs[a])
      && (forall a, b :: a in entries && b in entries && a != b ==> entries[a] != entries[b])
    }

    constructor ()
      ensures Valid() && entries == map[] && refs == map[]
    {
      entries, refs := map[], map[];
    }

    /** Shares the address's entry, or makes it when nobody references the address. */
    method AcquireEntry(a: Address) returns (entry: SharedPermits)
      requires Valid()
      modifies this, entries.Values
      ensures Valid() && refs == OneMore(old(refs), a)
      ensures a in entries && entry == entries[a] && entries == old(entries)[a := entry]
      ensures if a in old(entries) then entry == old(entries[a]) else fresh(entry)
    {
      if a in entries {
        entry := entries[a];
      } else {
        entry := new SharedPermits();
        entries := entries[a := entry];
      }
      entry.refs := entry.refs + 1;
      refs := OneMore(refs, a);
    }

    /** Drops one reference; the last one out deletes the entry. The identity check the program makes
        before deleting always holds. */
    method ReleaseEntry(a: Address, entry: SharedPermits)
      requires Valid() && a in entries && entry == entries[a]
      modifies this, entries.Values
      ensures Valid() && old(a in refs && refs[a] > 0) && refs == OneLess(old(refs), a)
      ensures entries == if old(refs[a]) == 1 then old(entries) - {a} else old(entries)
    {
      entry.refs := entry.refs - 1;
      if entry.refs == 0 && a in entries && entries[a] == entry {
        entries := entries - {a};
      }
      refs := OneLess(refs, a);
    }
  }
}
