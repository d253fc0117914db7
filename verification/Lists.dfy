/** Sorting a sequence by a key, cutting one into groups of a fixed size, and joining groups back. */
module Lists {

  lemma Associates<T>(a: seq<T>, b: seq<T>, c: seq<T>)
    ensures a + (b + c) == (a + b) + c
  {
  }

  function Flatten<T>(groups: seq<seq<T>>): seq<T> {
    if groups == [] then [] else groups[0] + Flatten(groups[1..])
  }

  function Chunks<T>(items: seq<T>, size: nat): seq<seq<T>>
    requires size > 0
  {
    if items == [] then []
    else if |items| <= size then [items]
    else [items[..size]] + Chunks(items[size..], size)
  }

  /** The groups are the items in order, none of them empty or too long, and only the last is short. */
  lemma {:induction false} ChunksPartition<T>(items: seq<T>, size: nat)
    requires size > 0
    ensures var chunks := Chunks(items, size);
            && Flatten(chunks) == items
            && (forall k :: 0 <= k < |chunks| ==> 0 < |chunks[k]| <= size)
            && (forall k :: 0 <= k < |chunks| - 1 ==> |chunks[k]| == size)
            && (forall k, c :: 0 <= k < |chunks| && c in chunks[k] ==> c in items)
    decreases |items|
  {
    if 0 < |items| <= size {
      assert Flatten([items]) == items + Flatten([]);
    } else if items != [] {
      ChunksPartition(items[size..], size);
      var rest := Chunks(items[size..], size);
      assert ([items[..size]] + rest)[1..] == rest;
      assert items == items[..size] + items[size..];
    }
  }

  predicate InOrder<T>(items: seq<T>, key: T -> int) {
    forall i, j :: 0 <= i < j < |items| ==> key(items[i]) <= key(items[j])
  }

  /** Before the first item whose key is not lower, so that equal keys keep their order. */
  function Insert<T>(item: T, sorted: seq<T>, key: T -> int): (r: seq<T>)
    ensures |r| == |sorted| + 1
  {
    if sorted == [] || key(item) <= key(sorted[0]) then [item] + sorted
    else [sorted[0]] + Insert(item, sorted[1..], key)
  }

  function SortBy<T>(items: seq<T>, key: T -> int): (r: seq<T>)
    ensures |r| == |items|
  {
    if items == [] then [] else Insert(items[0], SortBy(items[1..], key), key)
  }

  lemma {:induction false} InsertKeepsItems<T>(item: T, sorted: seq<T>, key: T -> int)
    ensures multiset(Insert(item, sorted, key)) == multiset(sorted) + multiset{item}
  {
    if sorted != [] && key(item) > key(sorted[0]) {
      InsertKeepsItems(item, sorted[1..], key);
      assert sorted == [sorted[0]] + sorted[1..];
    }
  }

  lemma {:induction false} InsertKeepsOrder<T>(item: T, sorted: seq<T>, key: T -> int)
    requires InOrder(sorted, key)
    ensures InOrder(Insert(item, sorted, key), key)
    ensures var first := Insert(item, sorted, key)[0]; first == item || (sorted != [] && first == sorted[0])
  {
    if sorted != [] && key(item) > key(sorted[0]) {
      InsertKeepsOrder(item, sorted[1..], key);
      var rest := Insert(item, sorted[1..], key);
      assert key(sorted[0]) <= key(rest[0]);
      assert forall k :: 0 <= k < |rest| ==> key(rest[0]) <= key(rest[k]);
    }
  }

  lemma {:induction false} SortByOrders<T>(items: seq<T>, key: T -> int)
    ensures InOrder(SortBy(items, key), key) && multiset(SortBy(items, key)) == multiset(items)
  {
    if items != [] {
      SortByOrders(items[1..], key);
      InsertKeepsOrder(items[0], SortBy(items[1..], key), key);
      InsertKeepsItems(items[0], SortBy(items[1..], key), key);
      assert items == [items[0]] + items[1..];
    }
  }

  predicate StrictlyInOrder<T>(items: seq<T>, key: T -> int) {
    forall i, j :: 0 <= i < j < |items| ==> key(items[i]) < key(items[j])
  }

  lemma {:induction false} InsertKeepsStrictOrder<T>(item: T, sorted: seq<T>, key: T -> int)
    requires StrictlyInOrder(sorted, key) && forall k :: 0 <= k < |sorted| ==> key(sorted[k]) != key(item)
    ensures StrictlyInOrder(Insert(item, sorted, key), key)
    ensures var first := Insert(item, sorted, key)[0]; first == item || (sorted != [] && first == sorted[0])
  {
    if sorted != [] && key(item) > key(sorted[0]) {
      InsertKeepsStrictOrder(item, sorted[1..], key);
      var rest := Insert(item, sorted[1..], key);
      assert key(sorted[0]) < key(rest[0]);
      assert forall k :: 0 < k < |rest| ==> key(rest[0]) < key(rest[k]);
    }
  }

  /** Distinct keys come out strictly ascending. */
  lemma {:induction false} SortByDistinct<T>(items: seq<T>, key: T -> int)
    requires forall i, j :: 0 <= i < j < |items| ==> key(items[i]) != key(items[j])
    ensures StrictlyInOrder(SortBy(items, key), key)
  {
    if items != [] {
      var rest := SortBy(items[1..], key);
      SortByDistinct(items[1..], key);
      SortByOrders(items[1..], key);
      forall k | 0 <= k < |rest| ensures key(rest[k]) != key(items[0]) {
        assert rest[k] in multiset(items[1..]);
        assert rest[k] in items[1..];
      }
      InsertKeepsStrictOrder(items[0], rest, key);
    }
  }
}
