/** Reading an append-only ledger through a filter: one page of a scan-limited listing, following its
    pages to the end, and tailing it for ever.

    A cursor is how many entries of the scan it covers, in the direction of the listing. */
module Paging {
  import opened Domain

  datatype Entry = Entry(digest: Digest, matches: bool)

  /** The digests a listing must give for the entries from `lo` up to `hi`. */
  function Matches(scan: seq<Entry>, lo: nat, hi: nat): seq<Digest>
    requires lo <= hi <= |scan|
    decreases hi - lo
  {
    if lo == hi then []
    else Matches(scan, lo, hi - 1) + if scan[hi - 1].matches then [scan[hi - 1].digest] else []
  }

  lemma {:induction false} MatchesSplit(scan: seq<Entry>, lo: nat, mid: nat, hi: nat)
    requires lo <= mid <= hi <= |scan|
    ensures Matches(scan, lo, hi) == Matches(scan, lo, mid) + Matches(scan, mid, hi)
    decreases hi
  {
    if mid < hi {
      MatchesSplit(scan, lo, mid, hi - 1);
    }
  }

  lemma {:induction false} MatchesOfPrefix(scan: seq<Entry>, longer: seq<Entry>, lo: nat, hi: nat)
    requires lo <= hi <= |scan| && scan <= longer
    ensures Matches(longer, lo, hi) == Matches(scan, lo, hi)
    decreases hi
  {
    if lo < hi {
      MatchesOfPrefix(scan, longer, lo, hi - 1);
    }
  }

  // ------------------------------------------------------------------------------------ one page

  datatype EndReason = ItemLimit | ScanLimit | OtherEnd

  datatype Frame = Frame(watermark: Option<nat>, digest: Option<Digest>, end: Option<EndReason>)

  datatype Page = Page(digests: seq<Digest>, hasNextPage: bool, endCursor: Option<nat>)

  const LEDGER_PAGE_SIZE := 50

  /** The watermark a listing from `start` has reached after these frames. */
  function Reached(start: nat, frames: seq<Frame>): nat {
    if frames == [] then start
    else
      var last := frames[|frames| - 1];
      if last.watermark.Some? then last.watermark.value else Reached(start, frames[..|frames| - 1])
  }

  function DigestsOf(frames: seq<Frame>): seq<Digest> {
    if frames == [] then []
    else
      var last := frames[|frames| - 1];
      DigestsOf(frames[..|frames| - 1]) + if last.digest.Some? then [last.digest.value] else []
  }

  function EndOf(frames: seq<Frame>): Option<EndReason> {
    if frames == [] then None
    else
      var last := frames[|frames| - 1];
      if last.end.Some? then last.end else EndOf(frames[..|frames| - 1])
  }

  predicate SaysMore(end: Option<EndReason>) {
    end == Some(ItemLimit) || end == Some(ScanLimit)
  }

  /** What the node promises of the frames it answers: watermarks move forward and cover their own
      frame, so that what was sent so far is every match up to the watermark; at most the limit is
      sent; a listing that does not stop at a limit has scanned to the end; one that does has moved. */
  ghost predicate NodeAnswers(scan: seq<Entry>, start: nat, frames: seq<Frame>) {
    && start <= |scan|
    && (forall k :: 0 <= k <= |frames| ==>
          start <= Reached(start, frames[..k]) <= |scan| &&
          DigestsOf(frames[..k]) == Matches(scan, start, Reached(start, frames[..k])))
    && (forall k :: 0 <= k < |frames| ==> Reached(start, frames[..k]) <= Reached(start, frames[..k + 1]))
    && |DigestsOf(frames)| <= LEDGER_PAGE_SIZE + 1
    && (SaysMore(EndOf(frames)) ==> start < Reached(start, frames))
    && (!SaysMore(EndOf(frames)) && |DigestsOf(frames)| <= LEDGER_PAGE_SIZE ==>
          DigestsOf(frames) == Matches(scan, start, |scan|))
  }

  /** What a reader may rely on: a page with more names a cursor past the one it was read from and has
      exactly the matches up to it; a final page has every match left, and a cursor it names leaves
      no match behind. */
  ghost predicate PageOk(scan: seq<Entry>, start: nat, page: Page) {
    && start <= |scan|
    && (page.endCursor.Some? ==> start <= page.endCursor.value <= |scan|)
    && (if page.hasNextPage then
          page.endCursor.Some? && start < page.endCursor.value &&
          page.digests == Matches(scan, start, page.endCursor.value)
        else
          page.digests == Matches(scan, start, |scan|) &&
          (page.digests != [] ==> page.endCursor.Some?) &&
          (page.endCursor.Some? ==> Matches(scan, page.endCursor.value, |scan|) == []))
  }

  lemma MatchesMeansMoved(scan: seq<Entry>, start: nat, reached: nat)
    requires start <= reached <= |scan| && Matches(scan, start, reached) != []
    ensures start < reached
  {
  }

  /** `listAffectedDigests`: fifty items and a look-ahead, whatever frames they come in. */
  method ListAffectedDigests(ghost scan: seq<Entry>, ghost start: nat, frames: seq<Frame>) returns (page: Page)
    requires NodeAnswers(scan, start, frames)
    ensures PageOk(scan, start, page)
    ensures |page.digests| <= LEDGER_PAGE_SIZE && page.digests <= DigestsOf(frames)
    ensures page.hasNextPage <==> |DigestsOf(frames)| > LEDGER_PAGE_SIZE || SaysMore(EndOf(frames))
    ensures page.hasNextPage && |DigestsOf(frames)| <= LEDGER_PAGE_SIZE ==>
              page.endCursor == Some(Reached(start, frames))
    ensures !page.hasNextPage ==> (page.endCursor.Some? <==> page.digests != [])
  {
    var digests: seq<Digest>, endCursor: Option<nat>, frontier: Option<nat> := [], None, None;
    var endReason: Option<EndReason>, sawLookahead := None, false;
    var i := 0;
    assert frames[..0] == [];
    while i < |frames|
      invariant i <= |frames| && |digests| <= LEDGER_PAGE_SIZE
      invariant frontier == None ==> Reached(start, frames[..i]) == start
      invariant frontier.Some? ==> Reached(start, frames[..i]) == frontier.value
      invariant endReason == EndOf(frames[..i])
      invariant digests <= DigestsOf(frames[..i])
      invariant !sawLookahead ==> digests == DigestsOf(frames[..i])
      invariant sawLookahead ==> |digests| == LEDGER_PAGE_SIZE < |DigestsOf(frames[..i])|
      invariant endCursor.Some? <==> digests != []
      invariant endCursor.Some? ==>
                  && start < endCursor.value <= Reached(start, frames[..i])
                  && digests == Matches(scan, start, endCursor.value)
    {
      var frame := frames[i];
      assert frames[..i + 1][..i] == frames[..i];
      if frame.watermark.Some? {
        frontier := frame.watermark;
      }
      if frame.digest.Some? {
        if |digests| >= LEDGER_PAGE_SIZE {
          sawLookahead := true;
        } else {
          CoversItsOwnFrame(scan, start, frames, i);
          endCursor := frontier;
          digests := digests + [frame.digest.value];
        }
      }
      if frame.end.Some? {
        endReason := frame.end;
      }
      i := i + 1;
    }
    assert frames[..|frames|] == frames;
    var hasNextPage := sawLookahead || endReason == Some(ScanLimit) || endReason == Some(ItemLimit);
    page := Page(digests, hasNextPage,
                 if sawLookahead then endCursor
                 else if hasNextPage then (if frontier.Some? then frontier else endCursor)
                 else endCursor);
    if !hasNextPage && endCursor.Some? {
      MatchesSplit(scan, start, endCursor.value, |scan|);
    }
  }

  /** A frame with a match moves the watermark past it. */
  lemma CoversItsOwnFrame(scan: seq<Entry>, start: nat, frames: seq<Frame>, i: nat)
    requires NodeAnswers(scan, start, frames) && i < |frames| && frames[i].digest.Some?
    ensures frames[i].watermark.Some? && start < frames[i].watermark.value
    ensures Reached(start, frames[..i + 1]) == frames[i].watermark.value
    ensures DigestsOf(frames[..i + 1]) == DigestsOf(frames[..i]) + [frames[i].digest.value]
  {
    assert frames[..i + 1][..i] == frames[..i];
    assert DigestsOf(frames[..i + 1]) == Matches(scan, start, Reached(start, frames[..i + 1]));
    MatchesMeansMoved(scan, start, Reached(start, frames[..i + 1]));
  }

  // -------------------------------------------------------------------------- following the pages

  /** One step of `pagesOf`: where to ask next, if the page says there is more and names a cursor. */
  function NextCursor(page: Page): Option<nat> {
    if page.hasNextPage then page.endCursor else None
  }

  /** The pages the unfold asked for: the k-th answered over `scans[k]`, which only ever grows, from the
      cursor the page before it named; only the last of them may be final. */
  ghost predicate IsUnfold(scans: seq<seq<Entry>>, start: nat, pages: seq<Page>)
    decreases |pages|
  {
    && |scans| == |pages|
    && (pages != [] ==>
          && PageOk(scans[0], start, pages[0])
          && (|pages| > 1 ==>
                scans[0] <= scans[1] && NextCursor(pages[0]).Some? &&
                IsUnfold(scans[1..], NextCursor(pages[0]).value, pages[1..])))
  }

  function Items(pages: seq<Page>): seq<Digest> {
    if pages == [] then [] else pages[0].digests + Items(pages[1..])
  }

  /** The whole listing, once and in order: when the unfold ends, its items are every match after the
      start, as the ledger was when the last page was read. */
  lemma {:induction false} PagesAreTheListing(scans: seq<seq<Entry>>, start: nat, pages: seq<Page>)
    requires IsUnfold(scans, start, pages) && pages != [] && NextCursor(pages[|pages| - 1]) == None
    ensures var last := scans[|scans| - 1];
            scans[0] <= last && start <= |last| && Items(pages) == Matches(last, start, |last|)
    decreases |pages|
  {
    if |pages| == 1 {
      assert Items(pages) == pages[0].digests + Items([]);
    } else {
      var cursor := NextCursor(pages[0]).value;
      PagesAreTheListing(scans[1..], cursor, pages[1..]);
      var last := scans[|scans| - 1];
      assert scans[1..][|scans| - 2] == last;
      MatchesOfPrefix(scans[0], last, start, cursor);
      MatchesSplit(last, start, cursor, |last|);
    }
  }

  /** Each continued page moves the cursor strictly, so over a ledger of `n` entries an unfold from
      `start` has at most `n - start` pages before its last. */
  lemma {:induction false} UnfoldEnds(scans: seq<seq<Entry>>, start: nat, pages: seq<Page>)
    requires IsUnfold(scans, start, pages) && pages != []
    ensures start + |pages| - 1 <= |scans[|scans| - 1]|
    decreases |pages|
  {
    if |pages| > 1 {
      UnfoldEnds(scans[1..], NextCursor(pages[0]).value, pages[1..]);
      assert scans[1..][|scans| - 2] == scans[|scans| - 1];
    }
  }

  // ------------------------------------------------------------------- the listing, newest first

  function Reverse<T>(items: seq<T>): (r: seq<T>)
    ensures |r| == |items|
  {
    if items == [] then [] else Reverse(items[1..]) + [items[0]]
  }

  lemma {:induction false} ReverseAppend<T>(a: seq<T>, b: seq<T>)
    ensures Reverse(a + b) == Reverse(b) + Reverse(a)
  {
    if a == [] {
      assert a + b == b;
    } else {
      ReverseAppend(a[1..], b);
      assert (a + b)[1..] == a[1..] + b;
    }
  }

  lemma {:induction false} MatchesShift(scan: seq<Entry>, c: nat, hi: nat)
    requires c + hi <= |scan|
    ensures Matches(scan[c..], 0, hi) == Matches(scan, c, c + hi)
    decreases hi
  {
    if hi > 0 {
      MatchesShift(scan, c, hi - 1);
    }
  }

  /** A descending listing fixes its scan with its first page: what is below a position reads later exactly
      as what was left of that scan, however the ledger has grown since. */
  lemma DescendingScanIsFixed(ledger: seq<Entry>, p: nat, c: nat)
    requires p <= |ledger| && c <= p
    ensures Reverse(ledger[..p])[c..] == Reverse(ledger[..p - c])
  {
    var kept, read := ledger[..p - c], ledger[p - c..p];
    assert ledger[..p] == kept + read;
    ReverseAppend(kept, read);
  }

  lemma {:induction false} MatchesReversed(ledger: seq<Entry>)
    ensures Matches(Reverse(ledger), 0, |ledger|) == Reverse(Matches(ledger, 0, |ledger|))
  {
    if ledger != [] {
      var before, newest := ledger[..|ledger| - 1], ledger[|ledger| - 1];
      var scan := Reverse(ledger);
      assert ledger == before + [newest];
      ReverseAppend(before, [newest]);
      assert Reverse([newest]) == [newest];
      MatchesReversed(before);
      MatchesSplit(scan, 0, 1, |ledger|);
      MatchesShift(scan, 1, |before|);
      assert scan[1..] == Reverse(before);
      MatchesOfPrefix(before, ledger, 0, |before|);
      var one := if newest.matches then [newest.digest] else [];
      assert Matches(scan, 0, 1) == Matches(scan, 0, 0) + one;
      ReverseAppend(Matches(before, 0, |before|), one);
      assert Reverse(one) == one;
    }
  }

  /** The pages of a descending unfold: the k-th answered over `ledgers[k]`, which only ever grows, read
      downwards from the position the page before it named; only the last of them may be final. */
  ghost predicate IsDescent(ledgers: seq<seq<Entry>>, p: nat, pages: seq<Page>)
    decreases |pages|
  {
    && |ledgers| == |pages|
    && (pages != [] ==>
          && p <= |ledgers[0]| && PageOk(Reverse(ledgers[0][..p]), 0, pages[0])
          && (|pages| > 1 ==>
                ledgers[0] <= ledgers[1] && NextCursor(pages[0]).Some? &&
                IsDescent(ledgers[1..], p - NextCursor(pages[0]).value, pages[1..])))
  }

  lemma {:induction false} DescentIsTheScan(ledgers: seq<seq<Entry>>, p: nat, pages: seq<Page>)
    requires IsDescent(ledgers, p, pages) && pages != [] && NextCursor(pages[|pages| - 1]) == None
    ensures p <= |ledgers[0]| && Items(pages) == Matches(Reverse(ledgers[0][..p]), 0, p)
    decreases |pages|
  {
    var scan := Reverse(ledgers[0][..p]);
    if |pages| == 1 {
      assert Items(pages) == pages[0].digests + Items([]);
    } else {
      var c := NextCursor(pages[0]).value;
      DescentIsTheScan(ledgers[1..], p - c, pages[1..]);
      assert ledgers[1][..p - c] == ledgers[0][..p - c];
      DescendingScanIsFixed(ledgers[0], p, c);
      MatchesShift(scan, c, p - c);
      MatchesSplit(scan, 0, c, p);
    }
  }

  /** Newest first: the items of a descending listing are the matches below its start in the ledger its
      first page was read from, once each, in reverse order, whatever was appended in the meantime. */
  lemma DescendingPagesAreTheListing(ledgers: seq<seq<Entry>>, p: nat, pages: seq<Page>)
    requires IsDescent(ledgers, p, pages) && pages != [] && NextCursor(pages[|pages| - 1]) == None
    ensures p <= |ledgers[0]| && Items(pages) == Reverse(Matches(ledgers[0], 0, p))
  {
    DescentIsTheScan(ledgers, p, pages);
    MatchesReversed(ledgers[0][..p]);
    MatchesOfPrefix(ledgers[0][..p], ledgers[0], 0, p);
  }

  // ------------------------------------------------------------------------------------ the tail

  /** `cursor` is `None` only before any position is known. */
  datatype TailState = TailState(cursor: Option<nat>, waited: bool)

  datatype Emitted = Emitted(items: seq<Digest>, endCursor: Option<nat>, hasNextPage: bool)

  /** One step of `tailOf`: `head` is the newest position of the unfiltered ledger, read before the page
      and only after a wait. */
  function TailStep(state: TailState, head: Option<nat>, page: Page): (r: (Option<Emitted>, TailState)) {
    var more := page.hasNextPage && page.endCursor.Some?;
    var named := if page.endCursor.Some? then page.endCursor else state.cursor;
    var endCursor := if !more && page.digests == [] && state.waited && head.Some? then head else named;
    var emitted := if page.digests != [] || endCursor != state.cursor then Some(Emitted(page.digests, endCursor, more))
                   else None;
    (emitted, TailState(endCursor, !more))
  }

  /** One poll: how long the ledger was when the head was read, and the ledger the page was read from. */
  datatype Poll = Poll(headAt: nat, scan: seq<Entry>, page: Page)

  function At(cursor: Option<nat>): nat {
    if cursor.Some? then cursor.value else 0
  }

  /** The newest position of an unfiltered ledger of this length. */
  function HeadOf(length: nat): Option<nat> {
    if length == 0 then None else Some(length)
  }

  /** The polls of a tail on a single append-only ledger: each head is read after the page before it,
      and before its own page. */
  ghost predicate IsTail(before: seq<Entry>, state: TailState, polls: seq<Poll>)
    decreases |polls|
  {
    polls == [] ||
    (var poll := polls[0];
     && |before| <= poll.headAt <= |poll.scan| && before <= poll.scan
     && PageOk(poll.scan, At(state.cursor), poll.page)
     && IsTail(poll.scan, TailStep(state, HeadOf(poll.headAt), poll.page).1, polls[1..]))
  }

  ghost function TailAfter(state: TailState, polls: seq<Poll>): TailState
    decreases |polls|
  {
    if polls == [] then state else TailAfter(TailStep(state, HeadOf(polls[0].headAt), polls[0].page).1, polls[1..])
  }

  ghost function TailItems(state: TailState, polls: seq<Poll>): seq<Digest>
    decreases |polls|
  {
    if polls == [] then []
    else
      var (emitted, next) := TailStep(state, HeadOf(polls[0].headAt), polls[0].page);
      (if emitted.Some? then emitted.value.items else []) + TailItems(next, polls[1..])
  }

  ghost function LastScan(before: seq<Entry>, polls: seq<Poll>): seq<Entry> {
    if polls == [] then before else polls[|polls| - 1].scan
  }

  /** No gaps and no duplicates: after any number of polls the items emitted are exactly the matches
      between the start and the current cursor, which never moves back. */
  lemma {:induction false} TailIsExact(before: seq<Entry>, state: TailState, polls: seq<Poll>)
    requires IsTail(before, state, polls) && At(state.cursor) <= |before|
    ensures TailCovers(before, state, polls)
    decreases |polls|
  {
    if polls != [] {
      var poll := polls[0];
      var next := TailStep(state, HeadOf(poll.headAt), poll.page).1;
      StepIsExact(before, state, poll);
      TailIsExact(poll.scan, next, polls[1..]);
      var scan := LastScan(before, polls);
      assert scan == LastScan(poll.scan, polls[1..]);
      var start, mid, end := At(state.cursor), At(next.cursor), At(TailAfter(state, polls).cursor);
      assert mid <= end <= |scan| && poll.scan <= scan;
      assert TailItems(state, polls) == Matches(poll.scan, start, mid) + Matches(scan, mid, end);
      MatchesOfPrefix(poll.scan, scan, start, mid);
      MatchesSplit(scan, start, mid, end);
    }
  }

  /** The items emitted are exactly the matches from the first cursor to the last. */
  ghost predicate TailCovers(before: seq<Entry>, state: TailState, polls: seq<Poll>) {
    var scan, cursor := LastScan(before, polls), At(TailAfter(state, polls).cursor);
    && before <= scan && At(state.cursor) <= cursor <= |scan|
    && TailItems(state, polls) == Matches(scan, At(state.cursor), cursor)
  }

  /** One poll, in full: its page's items are emitted with the cursor moved to, nothing is skipped, a page
      that says more moves the cursor, a final one leaves no match of the polled ledger past it, and the
      next poll waits exactly after a final one. */
  lemma StepIsExact(before: seq<Entry>, state: TailState, poll: Poll)
    requires At(state.cursor) <= |before| <= poll.headAt <= |poll.scan|
    requires PageOk(poll.scan, At(state.cursor), poll.page)
    ensures var (emitted, next) := TailStep(state, HeadOf(poll.headAt), poll.page);
            && At(state.cursor) <= At(next.cursor) <= |poll.scan|
            && (if emitted.Some? then emitted.value.items else []) ==
               Matches(poll.scan, At(state.cursor), At(next.cursor))
            && (if emitted.Some? then emitted.value.items else []) == poll.page.digests
            && (emitted == None ==> poll.page.digests == [] && next.cursor == state.cursor)
            && (emitted.Some? ==>
                  && emitted.value.endCursor == next.cursor && emitted.value.hasNextPage == poll.page.hasNextPage
                  && (poll.page.digests != [] || next.cursor != state.cursor))
            && (poll.page.hasNextPage ==> At(state.cursor) < At(next.cursor))
            && (!poll.page.hasNextPage ==> Matches(poll.scan, At(next.cursor), |poll.scan|) == [])
            && next.waited == !poll.page.hasNextPage
  {
    var start := At(state.cursor);
    var next := TailStep(state, HeadOf(poll.headAt), poll.page).1;
    if !poll.page.hasNextPage {
      MatchesSplit(poll.scan, start, At(next.cursor), |poll.scan|);
    }
  }

  /** And an empty final page of a tail that has waited moves the cursor to the head read before it. */
  lemma EmptyPageMovesToTheHead(state: TailState, head: nat, page: Page)
    requires state.waited && !page.hasNextPage && page.digests == []
    ensures TailStep(state, Some(head), page).1.cursor == Some(head)
  {
  }

  lemma {:induction false} TailAfterLast(before: seq<Entry>, state: TailState, polls: seq<Poll>)
    requires IsTail(before, state, polls) && At(state.cursor) <= |before| && polls != []
    ensures var last := polls[|polls| - 1];
            !last.page.hasNextPage ==>
              At(TailAfter(state, polls).cursor) <= |last.scan| &&
              Matches(last.scan, At(TailAfter(state, polls).cursor), |last.scan|) == []
    decreases |polls|
  {
    var poll := polls[0];
    var next := TailStep(state, HeadOf(poll.headAt), poll.page).1;
    StepIsExact(before, state, poll);
    assert TailAfter(state, polls) == TailAfter(next, polls[1..]);
    if |polls| > 1 {
      TailAfterLast(poll.scan, next, polls[1..]);
      assert polls[1..][|polls| - 2] == polls[|polls| - 1];
    }
  }

  /** A tail that has caught up has emitted everything: after a final page its items are every match from its
      first cursor to the end of the ledger that page was read from. */
  lemma CaughtUpTailIsComplete(before: seq<Entry>, state: TailState, polls: seq<Poll>)
    requires IsTail(before, state, polls) && At(state.cursor) <= |before|
    requires polls != [] && !polls[|polls| - 1].page.hasNextPage
    ensures var scan := polls[|polls| - 1].scan;
            before <= scan && TailItems(state, polls) == Matches(scan, At(state.cursor), |scan|)
  {
    TailIsExact(before, state, polls);
    TailAfterLast(before, state, polls);
    var scan := polls[|polls| - 1].scan;
    MatchesSplit(scan, At(state.cursor), At(TailAfter(state, polls).cursor), |scan|);
  }

  /** A tail that has not caught up moves with every poll, so it meets a final page before it has made more
      polls than there are entries. */
  lemma {:induction false} UncaughtTailMoves(before: seq<Entry>, state: TailState, polls: seq<Poll>)
    requires IsTail(before, state, polls) && At(state.cursor) <= |before|
    requires forall k :: 0 <= k < |polls| ==> polls[k].page.hasNextPage
    ensures At(state.cursor) + |polls| <= |LastScan(before, polls)|
    decreases |polls|
  {
    if polls != [] {
      var poll := polls[0];
      StepIsExact(before, state, poll);
      UncaughtTailMoves(poll.scan, TailStep(state, HeadOf(poll.headAt), poll.page).1, polls[1..]);
      assert LastScan(before, polls) == LastScan(poll.scan, polls[1..]);
    }
  }

  /** Why the head is read first, and from the same ledger: a head ahead of the ledger an empty final
      page was read from lets the cursor jump over a match, for good. */
  lemma HeadAheadSkipsAMatch(scan: seq<Entry>, state: TailState, head: nat, digest: Digest)
    requires state.waited && At(state.cursor) <= |scan| < head && Matches(scan, At(state.cursor), |scan|) == []
    ensures exists grown: seq<Entry> ::
              && scan <= grown && |grown| == head
              && PageOk(scan, At(state.cursor), Page([], false, None))
              && TailStep(state, Some(head), Page([], false, None)).1.cursor == Some(head)
              && digest in Matches(grown, At(state.cursor), head)
  {
    var grown := scan + seq(head - |scan|, _ => Entry(digest, true));
    var next := |scan| + 1;
    assert grown[next - 1] == Entry(digest, true);
    MatchesSplit(grown, At(state.cursor), next, head);
  }
}

