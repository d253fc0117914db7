/** `Signer.multisig`: member signers in any order, made into one signer whose combined signatures the
    chain accepts. */
module MultiSig {
  import opened Domain
  import opened Lists
  import opened Signers

  datatype Member = Member(address: Address, weight: nat)

  datatype MultiSigKey = MultiSigKey(address: Address, members: seq<Member>, threshold: nat)

  /** `members.find`: the first member with this address. */
  function MemberAt(members: seq<Member>, address: Address): (index: Option<nat>)
    ensures index.Some? ==>
              && index.value < |members| && members[index.value].address == address
              && forall j :: 0 <= j < index.value ==> members[j].address != address
    ensures index == None ==> forall j :: 0 <= j < |members| ==> members[j].address != address
  {
    if members == [] then None
    else if members[0].address == address then Some(0)
    else
      var rest := MemberAt(members[1..], address);
      if rest.Some? then Some(rest.value + 1) else None
  }

  // ---------------------------------------------------------------------- what the chain verifies

  /** A signature over some bytes under the key of some address, or a multisig's own. */
  datatype Partial = Partial(key: Address, bytes: Digest) | Nested

  /** `bitmap` is the set of its bits. */
  datatype Combined = Combined(bitmap: set<nat>, signatures: seq<Partial>)

  /** The set bits, in the order the chain reads them. */
  function Bits(bitmap: set<nat>, count: nat): seq<nat> {
    if count == 0 then [] else Bits(bitmap, count - 1) + if count - 1 in bitmap then [count - 1] else []
  }

  function WeightOf(members: seq<Member>, bitmap: set<nat>): nat {
    if members == [] then 0
    else
      var last := |members| - 1;
      WeightOf(members[..last], bitmap) + if last in bitmap then members[last].weight else 0
  }

  /** The chain pairs the n-th signature with the n-th set bit. */
  predicate Verifies(key: MultiSigKey, combined: Combined, bytes: Digest) {
    var bits := Bits(combined.bitmap, |key.members|);
    && combined.bitmap <= (set bit | bit in bits)
    && |combined.signatures| == |bits|
    && (forall n :: 0 <= n < |bits| ==>
          bits[n] < |key.members| && combined.signatures[n] == Partial(key.members[bits[n]].address, bytes))
    && WeightOf(key.members, combined.bitmap) >= key.threshold
  }

  lemma {:induction false} BitsAreTheSet(bitmap: set<nat>, count: nat)
    ensures forall bit :: bit in Bits(bitmap, count) <==> bit in bitmap && bit < count
    ensures forall k :: 0 <= k < |Bits(bitmap, count)| ==> Bits(bitmap, count)[k] < count
    ensures Ascending(Bits(bitmap, count))
  {
    if count > 0 {
      BitsAreTheSet(bitmap, count - 1);
    }
  }

  predicate Ascending(indices: seq<nat>) {
    forall i, j :: 0 <= i < j < |indices| ==> indices[i] < indices[j]
  }

  /** The bits of a set are the one ascending list of it. */
  lemma {:induction false} AscendingIsBits(indices: seq<nat>, bitmap: set<nat>, count: nat)
    requires Ascending(indices)
    requires forall bit :: bit in indices <==> bit in bitmap && bit < count
    ensures indices == Bits(bitmap, count)
    decreases count
  {
    assert |indices| == 0 || indices[0] in indices;
    if count > 0 && count - 1 in bitmap {
      var last := |indices| - 1;
      var at: nat :| at < |indices| && indices[at] == count - 1;
      assert indices[last] in indices;
      assert at == last;
      var before := indices[..last];
      forall bit | bit in before ensures bit in bitmap && bit < count - 1 {
        var k: nat :| k < last && before[k] == bit;
        assert indices[k] in indices;
      }
      forall bit | bit in bitmap && bit < count - 1 ensures bit in before {
        assert bit in indices;
        var k: nat :| k < |indices| && indices[k] == bit;
        assert before[k] == bit;
      }
      AscendingIsBits(before, bitmap, count - 1);
      assert indices == before + [count - 1];
    } else if count > 0 {
      AscendingIsBits(indices, bitmap, count - 1);
    }
  }

  // ------------------------------------------------------------------------------- combining them

  function IndexOf(key: MultiSigKey, partial: Partial): Option<nat> {
    if partial.Nested? then None else MemberAt(key.members, partial.key)
  }

  /** `combinePartialSignatures`: the signatures as given, and the bits of the members they are from; a
      stranger's signature, another multisig's, or a second one from a member is refused. */
  function Combine(key: MultiSigKey, partials: seq<Partial>): Option<Combined> {
    if (forall k :: 0 <= k < |partials| ==> IndexOf(key, partials[k]).Some?) &&
       (forall i, j :: 0 <= i < j < |partials| ==> IndexOf(key, partials[i]) != IndexOf(key, partials[j]))
    then Some(Combined(set k | 0 <= k < |partials| :: IndexOf(key, partials[k]).value, partials))
    else None
  }

  function IndicesOf(key: MultiSigKey, partials: seq<Partial>): seq<nat>
    requires Combine(key, partials).Some?
  {
    seq(|partials|, k requires 0 <= k < |partials| => IndexOf(key, partials[k]).value)
  }

  lemma IndicesAreTheBitmap(key: MultiSigKey, partials: seq<Partial>)
    requires Combine(key, partials).Some?
    ensures forall bit :: bit in IndicesOf(key, partials) <==>
              bit in Combine(key, partials).value.bitmap && bit < |key.members|
  {
    var indices, bitmap := IndicesOf(key, partials), Combine(key, partials).value.bitmap;
    forall bit | bit in bitmap ensures bit in indices && bit < |key.members| {
      var k: nat :| k < |partials| && IndexOf(key, partials[k]).value == bit;
      assert indices[k] == bit;
    }
    forall bit | bit in indices ensures bit in bitmap {
      var k: nat :| k < |indices| && indices[k] == bit;
    }
  }

  lemma MemberOrderVerifies(key: MultiSigKey, partials: seq<Partial>, bytes: Digest)
    requires Combine(key, partials).Some? && Ascending(IndicesOf(key, partials))
    requires forall k :: 0 <= k < |partials| ==> partials[k].Partial? && partials[k].bytes == bytes
    requires WeightOf(key.members, Combine(key, partials).value.bitmap) >= key.threshold
    ensures Verifies(key, Combine(key, partials).value, bytes)
  {
    var bitmap, indices := Combine(key, partials).value.bitmap, IndicesOf(key, partials);
    IndicesAreTheBitmap(key, partials);
    AscendingIsBits(indices, bitmap, |key.members|);
    forall k | 0 <= k < |partials|
      ensures indices[k] < |key.members| && partials[k] == Partial(key.members[indices[k]].address, bytes)
    {
      assert IndexOf(key, partials[k]) == Some(indices[k]);
    }
    assert forall bit :: bit in bitmap ==> bit in indices;
  }

  lemma VerifiedIsInMemberOrder(key: MultiSigKey, partials: seq<Partial>, bytes: Digest)
    requires forall i, j :: 0 <= i < j < |key.members| ==> key.members[i].address != key.members[j].address
    requires Combine(key, partials).Some? && Verifies(key, Combine(key, partials).value, bytes)
    ensures Ascending(IndicesOf(key, partials))
  {
    var combined, indices := Combine(key, partials).value, IndicesOf(key, partials);
    var bits := Bits(combined.bitmap, |key.members|);
    BitsAreTheSet(combined.bitmap, |key.members|);
    forall n | 0 <= n < |bits| ensures indices[n] == bits[n] {
      assert partials[n] == Partial(key.members[bits[n]].address, bytes);
      assert IndexOf(key, partials[n]) == Some(indices[n]);
    }
    assert indices == bits;
  }

  /** Why the order matters: of all the orders the same signatures can be combined in, the chain accepts
      member order and no other. */
  lemma OnlyMemberOrderVerifies(key: MultiSigKey, partials: seq<Partial>, bytes: Digest)
    requires forall i, j :: 0 <= i < j < |key.members| ==> key.members[i].address != key.members[j].address
    requires Combine(key, partials).Some?
    requires forall k :: 0 <= k < |partials| ==> partials[k].Partial? && partials[k].bytes == bytes
    requires WeightOf(key.members, Combine(key, partials).value.bitmap) >= key.threshold
    ensures Verifies(key, Combine(key, partials).value, bytes) <==> Ascending(IndicesOf(key, partials))
  {
    if Ascending(IndicesOf(key, partials)) {
      MemberOrderVerifies(key, partials, bytes);
    }
    if Verifies(key, Combine(key, partials).value, bytes) {
      VerifiedIsInMemberOrder(key, partials, bytes);
    }
  }

  // ------------------------------------------------------------------------------ making the signer

  datatype Chosen = Chosen(index: nat, weight: nat, signer: Signer)

  datatype KeyError = NotAMember(address: Address) | TwoForOneMember(address: Address) | Underweight(weight: nat)

  datatype Result<+T> = Made(value: T) | Invalid(error: KeyError)

  function TotalWeight(chosen: seq<Chosen>): nat {
    if chosen == [] then 0 else TotalWeight(chosen[..|chosen| - 1]) + chosen[|chosen| - 1].weight
  }

  function IndexSet(chosen: seq<Chosen>): set<nat> {
    set k | 0 <= k < |chosen| :: chosen[k].index
  }

  /** Every entry is a member of the key, at that member's index and weight, and no two are the same. */
  ghost predicate AreMembers(key: MultiSigKey, chosen: seq<Chosen>) {
    && (forall k :: 0 <= k < |chosen| ==>
          && MemberAt(key.members, chosen[k].signer.address) == Some(chosen[k].index)
          && chosen[k].weight == key.members[chosen[k].index].weight)
    && (forall i, j :: 0 <= i < j < |chosen| ==> chosen[i].index != chosen[j].index)
  }

  predicate DistinctAddresses(signers: seq<Signer>) {
    forall i, j :: 0 <= i < j < |signers| ==> signers[i].address != signers[j].address
  }

  ghost predicate AllMembers(key: MultiSigKey, signers: seq<Signer>) {
    forall k :: 0 <= k < |signers| ==> MemberAt(key.members, signers[k].address).Some?
  }

  /** Distinct members that weigh enough together: nothing else about the signers, and not their order. */
  ghost predicate Acceptable(key: MultiSigKey, signers: seq<Signer>) {
    && AllMembers(key, signers)
    && DistinctAddresses(signers)
    && WeightOf(key.members, BitmapOf(key, signers)) >= key.threshold
  }

  ghost function BitmapOf(key: MultiSigKey, signers: seq<Signer>): set<nat> {
    set k | 0 <= k < |signers| && MemberAt(key.members, signers[k].address).Some? ::
      MemberAt(key.members, signers[k].address).value
  }

  lemma {:induction false} WeightOfOneMore(members: seq<Member>, bitmap: set<nat>, bit: nat)
    requires bit !in bitmap && bit < |members|
    ensures WeightOf(members, bitmap + {bit}) == WeightOf(members, bitmap) + members[bit].weight
  {
    var last := |members| - 1;
    if bit < last {
      WeightOfOneMore(members[..last], bitmap, bit);
    } else {
      WeightIgnoresOthers(members[..last], bitmap, bit);
    }
  }

  lemma {:induction false} WeightIgnoresOthers(members: seq<Member>, bitmap: set<nat>, bit: nat)
    requires bit >= |members|
    ensures WeightOf(members, bitmap + {bit}) == WeightOf(members, bitmap)
  {
    if members != [] {
      WeightIgnoresOthers(members[..|members| - 1], bitmap, bit);
    }
  }

  lemma {:induction false} NoBitsWeighNothing(members: seq<Member>)
    ensures WeightOf(members, {}) == 0
  {
    if members != [] {
      NoBitsWeighNothing(members[..|members| - 1]);
    }
  }

  /** Adding up weights signer by signer counts each member once. */
  lemma {:induction false} TotalIsTheBitmapsWeight(key: MultiSigKey, chosen: seq<Chosen>)
    requires AreMembers(key, chosen)
    ensures TotalWeight(chosen) == WeightOf(key.members, IndexSet(chosen))
  {
    if chosen == [] {
      NoBitsWeighNothing(key.members);
      assert IndexSet(chosen) == {};
    } else {
      var before, last := chosen[..|chosen| - 1], chosen[|chosen| - 1];
      TotalIsTheBitmapsWeight(key, before);
      WeightOfOneMore(key.members, IndexSet(before), last.index);
      assert IndexSet(chosen) == IndexSet(before) + {last.index};
    }
  }

  function IndexIn(entry: Chosen): int {
    entry.index
  }

  /** The sort. */
  function ByMember(chosen: seq<Chosen>): seq<Chosen> {
    SortBy(chosen, IndexIn)
  }

  function SignersOf(chosen: seq<Chosen>): (signers: seq<Signer>)
    ensures |signers| == |chosen|
    ensures forall k :: 0 <= k < |chosen| ==> signers[k] == chosen[k].signer
  {
    if chosen == [] then [] else [chosen[0].signer] + SignersOf(chosen[1..])
  }

  lemma {:induction false} InsertKeepsSigners(entry: Chosen, sorted: seq<Chosen>)
    ensures multiset(SignersOf(Insert(entry, sorted, IndexIn))) == multiset{entry.signer} + multiset(SignersOf(sorted))
  {
    if sorted != [] && sorted[0].index < entry.index {
      InsertKeepsSigners(entry, sorted[1..]);
    }
  }

  lemma {:induction false} SortKeepsSigners(chosen: seq<Chosen>)
    ensures multiset(SignersOf(SortBy(chosen, IndexIn))) == multiset(SignersOf(chosen))
  {
    if chosen != [] {
      SortKeepsSigners(chosen[1..]);
      InsertKeepsSigners(chosen[0], SortBy(chosen[1..], IndexIn));
    }
  }

  function PlaceOf(key: MultiSigKey, signer: Signer): nat {
    var index := MemberAt(key.members, signer.address);
    if index.Some? then index.value else |key.members|
  }

  /** Members, in the order of their places. */
  predicate InMemberOrder(key: MultiSigKey, ordered: seq<Signer>) {
    && (forall k :: 0 <= k < |ordered| ==> PlaceOf(key, ordered[k]) < |key.members|)
    && (forall i, j :: 0 <= i < j < |ordered| ==> PlaceOf(key, ordered[i]) < PlaceOf(key, ordered[j]))
  }

  /** `multisig`: the signer is made exactly when the signers are distinct members that reach the
      threshold, and then holds them in member order. */
  method Make(key: MultiSigKey, signers: seq<Signer>) returns (made: Result<Signer>)
    ensures made.Made? <==> Acceptable(key, signers)
    ensures made.Made? ==>
              made.value.MultiSigSigner? && made.value.address == key.address &&
              InMemberOrder(key, made.value.members) && multiset(made.value.members) == multiset(signers)
  {
    var found := Choose(key, signers);
    if found.Invalid? {
      return Invalid(found.error);
    }
    var chosen := found.value;
    TotalIsTheBitmapsWeight(key, chosen);
    ChosenBitmap(key, chosen);
    if TotalWeight(chosen) < key.threshold {
      return Invalid(Underweight(TotalWeight(chosen)));
    }
    var ordered := ByMember(chosen);
    OrderedEntriesAreInMemberOrder(key, chosen, signers);
    made := Made(MultiSigSigner(key.address, SignersOf(ordered)));
  }

  lemma ChosenBitmap(key: MultiSigKey, chosen: seq<Chosen>)
    requires AreMembers(key, chosen)
    ensures IndexSet(chosen) == BitmapOf(key, SignersOf(chosen))
  {
    forall k | 0 <= k < |chosen|
      ensures MemberAt(key.members, SignersOf(chosen)[k].address) == Some(chosen[k].index)
    {
    }
  }

  /** `chosen.some`. */
  method IsTaken(chosen: seq<Chosen>, index: nat) returns (taken: bool)
    ensures taken <==> exists k :: 0 <= k < |chosen| && chosen[k].index == index
  {
    for k := 0 to |chosen|
      invariant forall l :: 0 <= l < k ==> chosen[l].index != index
    {
      if chosen[k].index == index {
        return true;
      }
    }
    taken := false;
  }

  /** The loop: each signer's member, refused when it has none or was met before. */
  method Choose(key: MultiSigKey, signers: seq<Signer>) returns (found: Result<seq<Chosen>>)
    ensures found.Made? <==> AllMembers(key, signers) && DistinctAddresses(signers)
    ensures found.Made? ==> AreMembers(key, found.value) && SignersOf(found.value) == signers
  {
    var chosen: seq<Chosen> := [];
    for i := 0 to |signers|
      invariant |chosen| == i && AreMembers(key, chosen)
      invariant forall k :: 0 <= k < i ==> chosen[k].signer == signers[k]
      invariant AllMembers(key, signers[..i]) && DistinctAddresses(signers[..i])
    {
      var member := MemberAt(key.members, signers[i].address);
      if member == None {
        return Invalid(NotAMember(signers[i].address));
      }
      var taken := IsTaken(chosen, member.value);
      if taken {
        return Invalid(TwoForOneMember(signers[i].address));
      }
      chosen := chosen + [Chosen(member.value, key.members[member.value].weight, signers[i])];
    }
    assert signers[..|signers|] == signers;
    found := Made(chosen);
  }

  lemma EntriesAreInPlace(key: MultiSigKey, chosen: seq<Chosen>)
    requires AreMembers(key, chosen)
    ensures forall k :: 0 <= k < |chosen| ==>
              PlaceOf(key, ByMember(chosen)[k].signer) == IndexIn(ByMember(chosen)[k]) < |key.members|
  {
    SortByOrders(chosen, IndexIn);
    var ordered := ByMember(chosen);
    forall k | 0 <= k < |chosen| ensures PlaceOf(key, ordered[k].signer) == IndexIn(ordered[k]) < |key.members| {
      assert ordered[k] in multiset(chosen);
      var l: nat :| l < |chosen| && chosen[l] == ordered[k];
      assert MemberAt(key.members, chosen[l].signer.address) == Some(chosen[l].index);
    }
  }

  lemma OrderedEntriesAreInMemberOrder(key: MultiSigKey, chosen: seq<Chosen>, signers: seq<Signer>)
    requires AreMembers(key, chosen) && SignersOf(chosen) == signers
    ensures InMemberOrder(key, SignersOf(ByMember(chosen)))
    ensures multiset(SignersOf(ByMember(chosen))) == multiset(signers)
  {
    SortKeepsSigners(chosen);
    EntriesAreInPlace(key, chosen);
    SortByDistinct(chosen, IndexIn);
    var ordered := ByMember(chosen);
    forall i, j | 0 <= i < j < |ordered|
      ensures PlaceOf(key, SignersOf(ordered)[i]) < PlaceOf(key, SignersOf(ordered)[j])
    {
      assert IndexIn(ordered[i]) < IndexIn(ordered[j]);
    }
  }

  // -------------------------------------------------------------------- what the signer is good for

  /** A signer that signs under its own address: neither an alias nor a multisig. */
  predicate SignsAsItself(signer: Signer) {
    signer.KeySigner? || signer.ZkLogin?
  }

  function PartialOf(signer: Signer, bytes: Digest): Partial {
    match signer
    case KeySigner(address) => Partial(address, bytes)
    case ZkLogin(address, _) => Partial(address, bytes)
    case MultiSigSigner(_, _) => Nested
    case AliasSigner(_, inner) => PartialOf(inner, bytes)
  }

  function PartialsOf(members: seq<Signer>, bytes: Digest): (partials: seq<Partial>)
    ensures |partials| == |members|
    ensures forall k :: 0 <= k < |members| ==> partials[k] == PartialOf(members[k], bytes)
  {
    if members == [] then []
    else
      var last := |members| - 1;
      PartialsOf(members[..last], bytes) + [PartialOf(members[last], bytes)]
  }

  /** `signTransaction`: the members sign one after another, in the order the signer holds them. */
  method SignTransaction(key: MultiSigKey, members: seq<Signer>, bytes: Digest) returns (combined: Option<Combined>)
    ensures combined == Combine(key, PartialsOf(members, bytes))
  {
    var partials: seq<Partial> := [];
    for k := 0 to |members|
      invariant partials == PartialsOf(members[..k], bytes)
    {
      assert members[..k + 1][..k] == members[..k];
      partials := partials + [PartialOf(members[k], bytes)];
    }
    assert members[..|members|] == members;
    combined := Combine(key, partials);
  }

  /** Whatever order acceptable signers are given in, the chain accepts what the signer made of them
      signs. */
  lemma AcceptedInEveryOrder(key: MultiSigKey, signers: seq<Signer>, ordered: seq<Signer>, bytes: Digest)
    requires Acceptable(key, signers) && InMemberOrder(key, ordered) && multiset(ordered) == multiset(signers)
    requires forall signer :: signer in signers ==> SignsAsItself(signer)
    ensures Combine(key, PartialsOf(ordered, bytes)).Some?
    ensures Verifies(key, Combine(key, PartialsOf(ordered, bytes)).value, bytes)
  {
    var partials := PartialsOf(ordered, bytes);
    forall k | 0 <= k < |ordered| ensures partials[k] == Partial(ordered[k].address, bytes) {
      assert ordered[k] in multiset(signers);
      assert ordered[k] in signers;
    }
    MembersCombine(key, ordered, partials, bytes);
    SameSignersSameBitmap(key, ordered, signers);
    MemberOrderVerifies(key, partials, bytes);
  }

  lemma MembersCombine(key: MultiSigKey, ordered: seq<Signer>, partials: seq<Partial>, bytes: Digest)
    requires InMemberOrder(key, ordered) && |partials| == |ordered|
    requires forall k :: 0 <= k < |ordered| ==> partials[k] == Partial(ordered[k].address, bytes)
    ensures Combine(key, partials).Some? && Ascending(IndicesOf(key, partials))
    ensures Combine(key, partials).value.bitmap == BitmapOf(key, ordered)
  {
    forall k | 0 <= k < |partials| ensures IndexOf(key, partials[k]) == Some(PlaceOf(key, ordered[k])) {
    }
  }

  lemma SameSignersSameBitmap(key: MultiSigKey, some: seq<Signer>, other: seq<Signer>)
    requires multiset(some) == multiset(other)
    ensures BitmapOf(key, some) == BitmapOf(key, other)
  {
    forall bit ensures bit in BitmapOf(key, some) <==> bit in BitmapOf(key, other) {
      if bit in BitmapOf(key, some) {
        var k: nat :| k < |some| && MemberAt(key.members, some[k].address) == Some(bit);
        assert some[k] in multiset(other);
        assert some[k] in other;
      }
      if bit in BitmapOf(key, other) {
        var k: nat :| k < |other| && MemberAt(key.members, other[k].address) == Some(bit);
        assert other[k] in multiset(some);
        assert other[k] in some;
      }
    }
  }

  function PlacesOf(key: MultiSigKey, signers: seq<Signer>): (places: seq<nat>)
    ensures |places| == |signers| && forall k :: 0 <= k < |signers| ==> places[k] == PlaceOf(key, signers[k])
  {
    seq(|signers|, k requires 0 <= k < |signers| => PlaceOf(key, signers[k]))
  }

  lemma PlacesAreBits(key: MultiSigKey, ordered: seq<Signer>)
    requires InMemberOrder(key, ordered)
    ensures PlacesOf(key, ordered) == Bits(BitmapOf(key, ordered), |key.members|)
  {
    var places, bitmap := PlacesOf(key, ordered), BitmapOf(key, ordered);
    forall bit | bit in places ensures bit in bitmap && bit < |key.members| {
      var k: nat :| k < |places| && places[k] == bit;
      assert MemberAt(key.members, ordered[k].address) == Some(bit);
    }
    forall bit | bit in bitmap ensures bit in places && bit < |key.members| {
      var k: nat :| k < |ordered| && MemberAt(key.members, ordered[k].address) == Some(bit);
      assert places[k] == bit;
    }
    AscendingIsBits(places, bitmap, |key.members|);
  }

  /** And the signer made of them is the same one. */
  lemma SameForEveryOrder(key: MultiSigKey, some: seq<Signer>, other: seq<Signer>)
    requires multiset(some) == multiset(other) && InMemberOrder(key, some) && InMemberOrder(key, other)
    ensures some == other
  {
    SameSignersSameBitmap(key, some, other);
    PlacesAreBits(key, some);
    PlacesAreBits(key, other);
    var places := PlacesOf(key, some);
    assert places == PlacesOf(key, other);
    forall i | 0 <= i < |some| ensures some[i] == other[i] {
      assert some[i] in multiset(other);
      var k: nat :| k < |other| && other[k] == some[i];
      assert places[k] == places[i];
      assert k == i;
    }
  }

  lemma {:induction false} DistinctMeansOnce(signers: seq<Signer>, signer: Signer)
    requires DistinctAddresses(signers)
    ensures multiset(signers)[signer] <= 1
  {
    if signers != [] {
      var before, last := signers[..|signers| - 1], signers[|signers| - 1];
      assert signers == before + [last];
      DistinctMeansOnce(before, signer);
      assert last !in before;
      assert last !in multiset(before);
    }
  }

  lemma DistinctInEveryOrder(signers: seq<Signer>, permuted: seq<Signer>)
    requires multiset(signers) == multiset(permuted) && DistinctAddresses(signers)
    ensures DistinctAddresses(permuted)
  {
    forall i, j | 0 <= i < j < |permuted| ensures permuted[i].address != permuted[j].address {
      var one, other := permuted[i], permuted[j];
      assert permuted == permuted[..i] + [one] + permuted[i + 1..j] + [other] + permuted[j + 1..];
      DistinctMeansOnce(signers, one);
      assert one != other;
      assert one in multiset(signers) && other in multiset(signers);
      var k, l :| 0 <= k < |signers| && 0 <= l < |signers| && signers[k] == one && signers[l] == other;
      assert k < l || l < k;
    }
  }

  lemma AcceptableOneWay(key: MultiSigKey, signers: seq<Signer>, permuted: seq<Signer>)
    requires multiset(signers) == multiset(permuted) && Acceptable(key, signers)
    ensures Acceptable(key, permuted)
  {
    DistinctInEveryOrder(signers, permuted);
    SameSignersSameBitmap(key, signers, permuted);
    forall k | 0 <= k < |permuted| ensures MemberAt(key.members, permuted[k].address).Some? {
      assert permuted[k] in multiset(signers);
      assert permuted[k] in signers;
    }
  }

  /** Whether the signer is made does not depend on the order either. */
  lemma AcceptableInEveryOrder(key: MultiSigKey, signers: seq<Signer>, permuted: seq<Signer>)
    requires multiset(signers) == multiset(permuted)
    ensures Acceptable(key, signers) <==> Acceptable(key, permuted)
  {
    if Acceptable(key, signers) {
      AcceptableOneWay(key, signers, permuted);
    }
    if Acceptable(key, permuted) {
      AcceptableOneWay(key, permuted, signers);
    }
  }
}
