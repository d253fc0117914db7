/** `Sui.getObjects`: one read of many objects, in chunks, that answers for every id asked for or not
    at all. */
module BatchRead {
  import opened Domain
  import opened Lists

  const CHUNK := 50

  /** An id as a caller spelled it; `key` is its normalized form. */
  datatype Id = Id(key: ObjectId, spelling: nat)

  /** What decoding an object comes to. `Broken` is an envelope that cannot be read at all. */
  datatype Body = Decoded(content: nat) | Misread(issue: nat) | Broken

  /** One position of a reply: `Hole` is an entry the node left out. */
  datatype Slot = Hole | ItemError(reason: nat) | Found(id: Id, body: Body)

  datatype Reply = CallFailed | Answered(objects: seq<Slot>)

  /** What the node answers to each request. */
  type Node = seq<Id> -> Reply

  datatype Item = Object(content: nat) | Unavailable(reason: nat) | Undecodable(issue: nat)

  /** A position that answers for this id, if only to say it is not there. */
  predicate Aligned(id: Id, slot: Slot) {
    slot.ItemError? || (slot.Found? && slot.id.key == id.key && slot.body != Broken)
  }

  predicate WellAnswered(page: seq<Id>, reply: Reply) {
    && reply.Answered?
    && |reply.objects| == |page|
    && forall k :: 0 <= k < |page| ==> Aligned(page[k], reply.objects[k])
  }

  function ItemOf(id: Id, slot: Slot): Item
    requires Aligned(id, slot)
  {
    match slot
    case ItemError(reason) => Unavailable(reason)
    case Found(_, Decoded(content)) => Object(content)
    case Found(_, Misread(issue)) => Undecodable(issue)
  }

  /** The item is what the node said at this position. */
  predicate Says(slot: Slot, item: Item) {
    match slot
    case Hole => false
    case ItemError(reason) => item == Unavailable(reason)
    case Found(_, body) =>
      match body
      case Decoded(content) => item == Object(content)
      case Misread(issue) => item == Undecodable(issue)
      case Broken => false
  }

  lemma ItemIsWhatWasSaid(id: Id, slot: Slot)
    requires Aligned(id, slot)
    ensures Says(slot, ItemOf(id, slot))
  {
  }

  // ------------------------------------------------------------------------------- what is asked

  function KeysOf(ids: seq<Id>): set<ObjectId> {
    set id | id in ids :: id.key
  }

  lemma KeysOfSum(a: seq<Id>, b: seq<Id>)
    ensures KeysOf(a + b) == KeysOf(a) + KeysOf(b)
  {
    assert forall id :: id in a + b <==> id in a || id in b;
  }

  /** The ids in order, without those an earlier one already names. */
  function FirstMentions(ids: seq<Id>): seq<Id> {
    if ids == [] then []
    else
      var before, last := ids[..|ids| - 1], ids[|ids| - 1];
      FirstMentions(before) + if last.key in KeysOf(before) then [] else [last]
  }

  lemma {:induction false} FirstMentionsNameEachKeyOnce(ids: seq<Id>)
    ensures KeysOf(FirstMentions(ids)) == KeysOf(ids)
    ensures forall i, j :: 0 <= i < j < |FirstMentions(ids)| ==> FirstMentions(ids)[i].key != FirstMentions(ids)[j].key
  {
    if ids != [] {
      var before, last := ids[..|ids| - 1], ids[|ids| - 1];
      FirstMentionsNameEachKeyOnce(before);
      assert ids == before + [last];
      var mentions := FirstMentions(before);
      KeysOfSum(before, [last]);
      KeysOfSum(mentions, [last]);
      forall i | 0 <= i < |mentions| ensures mentions[i].key in KeysOf(before) {
        assert mentions[i].key in KeysOf(mentions);
      }
    }
  }

  /** The requests a read of these ids makes, in order. */
  function Requests(ids: seq<Id>): seq<seq<Id>> {
    Chunks(FirstMentions(ids), CHUNK)
  }

  lemma {:induction false} ChunkHolds<T>(items: seq<T>, size: nat, n: nat) returns (p: nat, k: nat)
    requires size > 0 && n < |items|
    ensures p < |Chunks(items, size)| && k < |Chunks(items, size)[p]| && Chunks(items, size)[p][k] == items[n]
    decreases n
  {
    if n < size {
      p, k := 0, n;
    } else {
      p, k := ChunkHolds(items[size..], size, n - size);
      p := p + 1;
    }
  }

  lemma {:induction false} ChunkIsFrom<T>(items: seq<T>, size: nat, p: nat, k: nat)
    requires size > 0 && p < |Chunks(items, size)| && k < |Chunks(items, size)[p]|
    ensures k < size && p * size + k < |items| && items[p * size + k] == Chunks(items, size)[p][k]
    decreases p
  {
    if p > 0 {
      ChunkIsFrom(items[size..], size, p - 1, k);
      assert p * size == (p - 1) * size + size;
    }
  }

  ghost predicate AsksAt(pages: seq<seq<Id>>, p: nat, k: nat, key: ObjectId) {
    p < |pages| && k < |pages[p]| && pages[p][k].key == key
  }

  lemma EachIsAskedInOnePlace(ids: seq<Id>, key: ObjectId, p: nat, k: nat, q: nat, l: nat)
    requires AsksAt(Requests(ids), p, k, key) && AsksAt(Requests(ids), q, l, key)
    ensures p == q && k == l
  {
    var unique := FirstMentions(ids);
    FirstMentionsNameEachKeyOnce(ids);
    ChunkIsFrom(unique, CHUNK, p, k);
    ChunkIsFrom(unique, CHUNK, q, l);
    var m, n := p * CHUNK + k, q * CHUNK + l;
    assert unique[m].key == unique[n].key;
    assert m == n;
  }

  lemma OnlyTheIdsAreAsked(ids: seq<Id>, key: ObjectId, p: nat, k: nat)
    requires AsksAt(Requests(ids), p, k, key)
    ensures key in KeysOf(ids)
  {
    FirstMentionsNameEachKeyOnce(ids);
    ChunkIsFrom(FirstMentions(ids), CHUNK, p, k);
    assert key in KeysOf(FirstMentions(ids));
  }

  lemma EveryIdIsAsked(ids: seq<Id>, key: ObjectId) returns (p: nat, k: nat)
    requires key in KeysOf(ids)
    ensures AsksAt(Requests(ids), p, k, key)
  {
    var unique := FirstMentions(ids);
    FirstMentionsNameEachKeyOnce(ids);
    assert key in KeysOf(unique);
    var n: nat :| n < |unique| && unique[n].key == key;
    p, k := ChunkHolds(unique, CHUNK, n);
  }

  /** Each distinct id is in exactly one request, at one position; no request is empty or too long, and only
      the last is not full. */
  lemma AskedExactlyOnce(ids: seq<Id>, key: ObjectId)
    ensures forall page :: page in Requests(ids) ==> 0 < |page| <= CHUNK
    ensures forall p :: 0 <= p < |Requests(ids)| - 1 ==> |Requests(ids)[p]| == CHUNK
    ensures key in KeysOf(ids) <==> exists p, k :: AsksAt(Requests(ids), p, k, key)
    ensures forall p, k, q, l ::
              AsksAt(Requests(ids), p, k, key) && AsksAt(Requests(ids), q, l, key) ==> p == q && k == l
  {
    ChunksPartition(FirstMentions(ids), CHUNK);
    if key in KeysOf(ids) {
      var p, k := EveryIdIsAsked(ids, key);
    }
    forall p: nat, k: nat | AsksAt(Requests(ids), p, k, key) ensures key in KeysOf(ids) {
      OnlyTheIdsAreAsked(ids, key, p, k);
    }
    forall p: nat, k: nat, q: nat, l: nat | AsksAt(Requests(ids), p, k, key) && AsksAt(Requests(ids), q, l, key)
      ensures p == q && k == l
    {
      EachIsAskedInOnePlace(ids, key, p, k, q, l);
    }
  }

  // ------------------------------------------------------------------------------ what is answered

  /** The node answered this item for this id, in one of these requests. */
  ghost predicate AnsweredFor(node: Node, pages: seq<seq<Id>>, key: ObjectId, item: Item) {
    exists p, k :: AnsweredAt(node, pages, p, k, key, item)
  }

  ghost predicate AnsweredAt(node: Node, pages: seq<seq<Id>>, p: nat, k: nat, key: ObjectId, item: Item) {
    && AsksAt(pages, p, k, key)
    && WellAnswered(pages[p], node(pages[p]))
    && Says(node(pages[p]).objects[k], item)
  }

  /** The node's answer for an id is one item, however often and wherever the caller named it. */
  lemma AnswersAreUnique(ids: seq<Id>, node: Node, key: ObjectId, one: Item, other: Item)
    requires AnsweredFor(node, Requests(ids), key, one) && AnsweredFor(node, Requests(ids), key, other)
    ensures one == other
  {
    AskedExactlyOnce(ids, key);
    var p, k :| AnsweredAt(node, Requests(ids), p, k, key, one);
    var q, l :| AnsweredAt(node, Requests(ids), q, l, key, other);
    assert AsksAt(Requests(ids), p, k, key) && AsksAt(Requests(ids), q, l, key);
  }

  lemma OneMoreId(ids: seq<Id>, i: nat)
    requires i < |ids|
    ensures KeysOf(ids[..i + 1]) == KeysOf(ids[..i]) + {ids[i].key}
    ensures FirstMentions(ids[..i + 1]) ==
            FirstMentions(ids[..i]) + if ids[i].key in KeysOf(ids[..i]) then [] else [ids[i]]
  {
    assert ids[..i + 1][..i] == ids[..i] && ids[..i + 1] == ids[..i] + [ids[i]];
    KeysOfSum(ids[..i], [ids[i]]);
  }

  /** The first loop: the ids to ask for, each once, in the order and the spelling first met. */
  method Deduplicate(ids: seq<Id>) returns (unique: seq<Id>)
    ensures unique == FirstMentions(ids)
  {
    unique := [];
    var requested: set<ObjectId> := {};
    for i := 0 to |ids|
      invariant unique == FirstMentions(ids[..i]) && requested == KeysOf(ids[..i])
    {
      OneMoreId(ids, i);
      if ids[i].key !in requested {
        requested := requested + {ids[i].key};
        unique := unique + [ids[i]];
      }
    }
    assert ids[..|ids|] == ids;
  }

  /** One request: every position checked, the first one out of line fails it. */
  method FetchPage(page: seq<Id>, node: Node) returns (entries: Option<seq<(ObjectId, Item)>>)
    ensures entries.Some? <==> WellAnswered(page, node(page))
    ensures entries.Some? ==>
              && |entries.value| == |page|
              && forall k :: 0 <= k < |page| ==>
                   entries.value[k] == (page[k].key, ItemOf(page[k], node(page).objects[k]))
  {
    var reply := node(page);
    if reply.CallFailed? || |reply.objects| != |page| {
      return None;
    }
    var found: seq<(ObjectId, Item)> := [];
    for index := 0 to |page|
      invariant |found| == index
      invariant forall k :: 0 <= k < index ==>
                  Aligned(page[k], reply.objects[k]) && found[k] == (page[k].key, ItemOf(page[k], reply.objects[k]))
    {
      var id, slot := page[index], reply.objects[index];
      match slot {
        case Hole =>
          return None;
        case ItemError(reason) =>
          found := found + [(id.key, Unavailable(reason))];
        case Found(named, body) =>
          if named.key != id.key {
            return None;
          }
          match body {
            case Broken =>
              return None;
            case Misread(issue) =>
              found := found + [(id.key, Undecodable(issue))];
            case Decoded(content) =>
              found := found + [(id.key, Object(content))];
          }
      }
    }
    entries := Some(found);
  }

  /** The entries of one page, put into the answers so far. */
  method Collect(before: map<ObjectId, Item>, entries: seq<(ObjectId, Item)>) returns (answers: map<ObjectId, Item>)
    ensures answers.Keys == before.Keys + set entry | entry in entries :: entry.0
    ensures forall key :: key in answers ==>
              (key in before && answers[key] == before[key]) || (key, answers[key]) in entries
  {
    answers := before;
    for k := 0 to |entries|
      invariant answers.Keys == before.Keys + set entry | entry in entries[..k] :: entry.0
      invariant forall key :: key in answers ==>
                  (key in before && answers[key] == before[key]) || (key, answers[key]) in entries[..k]
    {
      answers := answers[entries[k].0 := entries[k].1];
      assert entries[..k + 1] == entries[..k] + [entries[k]];
    }
    assert entries[..|entries|] == entries;
  }

  /** What the answers must be once these pages were read. */
  ghost predicate HoldsAnswers(node: Node, pages: seq<seq<Id>>, answers: map<ObjectId, Item>) {
    && (forall key :: key in answers ==> AnsweredFor(node, pages, key, answers[key]))
    && (forall key, p, k :: AsksAt(pages, p, k, key) ==> key in answers)
  }

  lemma CollectHolds(node: Node, pages: seq<seq<Id>>, page: seq<Id>, entries: seq<(ObjectId, Item)>,
                     before: map<ObjectId, Item>, after: map<ObjectId, Item>)
    requires HoldsAnswers(node, pages, before) && WellAnswered(page, node(page)) && |entries| == |page|
    requires forall k :: 0 <= k < |page| ==>
               entries[k] == (page[k].key, ItemOf(page[k], node(page).objects[k]))
    requires after.Keys == before.Keys + set entry | entry in entries :: entry.0
    requires forall key :: key in after ==>
               (key in before && after[key] == before[key]) || (key, after[key]) in entries
    ensures HoldsAnswers(node, pages + [page], after)
  {
    var more := pages + [page];
    forall key | key in after ensures AnsweredFor(node, more, key, after[key]) {
      if (key, after[key]) in entries {
        var k: nat :| k < |entries| && entries[k] == (key, after[key]);
        assert AnsweredAt(node, more, |pages|, k, key, after[key]);
      } else {
        var p, k :| AnsweredAt(node, pages, p, k, key, before[key]);
        assert AnsweredAt(node, more, p, k, key, after[key]);
      }
    }
    forall key, p: nat, k: nat | AsksAt(more, p, k, key) ensures key in after {
      if p < |pages| {
        assert AsksAt(pages, p, k, key);
      } else {
        assert entries[k].0 == key && entries[k] in entries;
      }
    }
  }

  lemma EveryIdIsAnswered(ids: seq<Id>, node: Node, answers: map<ObjectId, Item>)
    requires HoldsAnswers(node, Requests(ids), answers)
    ensures forall id :: id in ids ==> id.key in answers
  {
    forall id | id in ids ensures id.key in answers {
      AskedExactlyOnce(ids, id.key);
      assert id.key in KeysOf(ids);
    }
  }

  /** The last loop: an answer for every id, in the caller's order, or no read at all. */
  method InOrder(ids: seq<Id>, answers: map<ObjectId, Item>) returns (results: Option<seq<Item>>)
    ensures results.Some? <==> forall id :: id in ids ==> id.key in answers
    ensures results.Some? ==>
              && |results.value| == |ids|
              && forall i :: 0 <= i < |ids| ==> ids[i].key in answers && results.value[i] == answers[ids[i].key]
  {
    var found: seq<Item> := [];
    for i := 0 to |ids|
      invariant |found| == i
      invariant forall j :: 0 <= j < i ==> ids[j].key in answers && found[j] == answers[ids[j].key]
    {
      if ids[i].key !in answers {
        assert ids[i] in ids;
        return None;
      }
      found := found + [answers[ids[i].key]];
    }
    results := Some(found);
  }

  /** The whole read. It succeeds exactly when every request was answered in line; then each position
      holds the node's answer for the id at that position, and each distinct id was asked for once. */
  method GetObjects(ids: seq<Id>, node: Node) returns (results: Option<seq<Item>>, asked: seq<seq<Id>>)
    ensures results.Some? <==> forall page :: page in Requests(ids) ==> WellAnswered(page, node(page))
    ensures asked <= Requests(ids) && (results.Some? ==> asked == Requests(ids))
    ensures results.Some? ==>
              && |results.value| == |ids|
              && forall i :: 0 <= i < |ids| ==> AnsweredFor(node, asked, ids[i].key, results.value[i])
  {
    var unique := Deduplicate(ids);
    var chunks := Chunks(unique, CHUNK);
    asked := [];
    var answers: map<ObjectId, Item> := map[];
    for c := 0 to |chunks|
      invariant asked == chunks[..c]
      invariant forall page :: page in asked ==> WellAnswered(page, node(page))
      invariant HoldsAnswers(node, asked, answers)
    {
      var entries := FetchPage(chunks[c], node);
      if entries.None? {
        assert chunks[c] in chunks;
        asked := asked + [chunks[c]];
        return None, asked;
      }
      var before := answers;
      answers := Collect(before, entries.value);
      CollectHolds(node, asked, chunks[c], entries.value, before, answers);
      asked := asked + [chunks[c]];
    }
    assert asked == Requests(ids);
    EveryIdIsAnswered(ids, node, answers);
    results := InOrder(ids, answers);
  }
}
