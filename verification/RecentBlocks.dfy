/**
 * The recent-blocks cache of the dashboard: a window of at most six blocks
 * below the chain tip, filled block by block with fetches that may fail.
 */
module RecentBlocks {
  import opened Words
  import opened Sorting

  const LIMIT: nat := 6

  /** A timeline item: its height, and the rest of it as text. */
  datatype Block = Block(height: U64, details: string)

  datatype Cache = Cache(chainHeight: Option<U64>, blocks: seq<Block>)

  /** One attempt to fetch the block at a height. */
  type Fetch = U64 -> Option<Block>

  /** A block fetched for a height has that height. */
  ghost predicate Faithful(fetch: Fetch) {
    forall h: U64 :: fetch(h).Some? ==> fetch(h).value.height == h
  }

  function FirstHeight(h: U64): U64 {
    SatSub(SatAdd64(h, 1), Min(LIMIT, SatAdd64(h, 1)))
  }

  predicate IsComplete(h: Option<U64>, blocks: seq<Block>) {
    if h.Some? then exists i :: 0 <= i < |blocks| && blocks[i].height == h.value else blocks == []
  }

  /** The blocks with a height from `lo` to `hi`, in order. */
  function Within(blocks: seq<Block>, lo: nat, hi: nat): seq<Block> {
    if blocks == [] then []
    else (if lo <= blocks[0].height <= hi then [blocks[0]] else []) + Within(blocks[1..], lo, hi)
  }

  function Lower(a: Block, b: Block): bool {
    a.height <= b.height
  }

  function Tidy(blocks: seq<Block>, h: U64): seq<Block> {
    StableSort(Lower, Within(blocks, FirstHeight(h), h))
  }

  function NextHeight(blocks: seq<Block>, h: U64): U64 {
    if blocks == [] then FirstHeight(h) else SatAdd64(blocks[|blocks| - 1].height, 1)
  }

  /** The fetch loop ends: the tip is below the largest word, or some fetch fails. */
  ghost predicate CanEnd(fetch: Fetch, next: U64, h: U64) {
    h < U64_MAX || exists k: U64 :: next <= k && fetch(k).None?
  }

  /** The blocks after the fetch loop: it stops at the first failure. */
  function Fill(fetch: Fetch, blocks: seq<Block>, next: U64, h: U64): seq<Block>
    requires CanEnd(fetch, next, h)
    decreases h + 1 - next
  {
    if next > h || fetch(next).None? then blocks
    else Fill(fetch, blocks + [fetch(next).value], SatAdd64(next, 1), h)
  }

  /** How many fetches the loop makes. */
  function FillCount(fetch: Fetch, next: U64, h: U64): nat
    requires CanEnd(fetch, next, h)
    decreases h + 1 - next
  {
    if next > h then 0
    else if fetch(next).None? then 1
    else 1 + FillCount(fetch, SatAdd64(next, 1), h)
  }

  /** The loop ends that starts from these cached blocks. */
  ghost predicate FetchEnds(fetch: Fetch, cached: seq<Block>, h: U64) {
    CanEnd(fetch, NextHeight(Tidy(cached, h), h), h)
  }

  function FetchedFrom(fetch: Fetch, start: seq<Block>, h: U64): seq<Block>
    requires CanEnd(fetch, NextHeight(start, h), h)
  {
    Tidy(Fill(fetch, start, NextHeight(start, h), h), h)
  }

  function Fetched(fetch: Fetch, cached: seq<Block>, h: U64): seq<Block>
    requires FetchEnds(fetch, cached, h)
  {
    FetchedFrom(fetch, Tidy(cached, h), h)
  }

  /** Whether a request ends: it is answered from the cache, or its fetch loop ends. */
  ghost predicate RequestEnds(fetch: Fetch, cache: Cache, h: Option<U64>) {
    h.Some? && cache.chainHeight != h ==> FetchEnds(fetch, cache.blocks, h.value)
  }

  /** The cache and the answer after a request for the tip `h`. */
  function Respond(fetch: Fetch, cache: Cache, h: Option<U64>): (Cache, seq<Block>)
    requires RequestEnds(fetch, cache, h)
  {
    if cache.chainHeight == h || h.None? then (cache, cache.blocks)
    else AfterFetch(cache, h.value, Fetched(fetch, cache.blocks, h.value))
  }

  /** How many fetches a request makes. */
  function RequestFetches(fetch: Fetch, cache: Cache, h: Option<U64>): nat
    requires RequestEnds(fetch, cache, h)
  {
    if cache.chainHeight == h || h.None? then 0
    else FillCount(fetch, NextHeight(Tidy(cache.blocks, h.value), h.value), h.value)
  }

  function AfterFetch(cache: Cache, h: U64, blocks: seq<Block>): (Cache, seq<Block>) {
    if IsComplete(Some(h), blocks) then (Cache(Some(h), blocks), blocks)
    else if blocks == [] then (cache, cache.blocks)
    else (Cache(None, blocks), blocks)
  }

  // ----- The loop and the cache, step by step -----

  /** Fetches what is missing above the cached part of the window; reports the number of fetches. */
  method FetchRecentBlocks(fetch: Fetch, cached: seq<Block>, h: U64) returns (blocks: seq<Block>, fetches: nat)
    requires FetchEnds(fetch, cached, h)
    ensures blocks == Fetched(fetch, cached, h)
    ensures fetches == FillCount(fetch, NextHeight(Tidy(cached, h), h), h)
  {
    blocks := Tidy(cached, h);
    var next: U64 := NextHeight(blocks, h);
    ghost var first: U64, start := next, blocks;
    fetches := 0;
    while next <= h
      invariant CanEnd(fetch, next, h)
      invariant Fill(fetch, blocks, next, h) == Fill(fetch, start, first, h)
      invariant fetches + FillCount(fetch, next, h) == FillCount(fetch, first, h)
      decreases h + 1 - next
    {
      fetches := fetches + 1;
      var block := fetch(next);
      if block.None? {
        blocks := Tidy(blocks, h);
        return;
      }
      blocks := blocks + [block.value];
      next := SatAdd64(next, 1);
    }
    blocks := Tidy(blocks, h);
  }

  class BlockCache {
    var chainHeight: Option<U64>
    var blocks: seq<Block>

    function Now(): Cache
      reads this
    {
      Cache(chainHeight, blocks)
    }

    constructor ()
      ensures Now() == Cache(None, [])
    {
      chainHeight, blocks := None, [];
    }

    /** One request with no other request in between. */
    method Request(fetch: Fetch, h: Option<U64>) returns (answer: seq<Block>, fetches: nat)
      requires RequestEnds(fetch, Now(), h)
      modifies this
      ensures (Now(), answer) == Respond(fetch, old(Now()), h)
      ensures fetches == RequestFetches(fetch, old(Now()), h)
    {
      if chainHeight == h {
        return blocks, 0;
      }
      var previous := blocks;
      if h.None? {
        return previous, 0;
      }
      answer, fetches := FetchRecentBlocks(fetch, blocks, h.value);
      var found := false;
      for i := 0 to |answer|
        invariant found <==> exists j :: 0 <= j < i && answer[j].height == h.value
      {
        found := found || answer[i].height == h.value;
      }
      if !found {
        if answer == [] {
          return previous, fetches;
        }
        chainHeight := None;
        blocks := answer;
        return;
      }
      chainHeight := h;
      blocks := answer;
    }
  }

  // ----- The window -----

  /** For every tip the window has min(6, tip + 1) heights, exactly when the tip is below the largest word. */
  lemma WindowSize(h: U64)
    ensures h + 1 - FirstHeight(h) == Min(LIMIT, h + 1) <==> h < U64_MAX
    ensures h < U64_MAX ==> FirstHeight(h) == SatSub(h, LIMIT - 1)
  {
  }

  /** The next height after some successful fetches. */
  function NextAfter(next: U64, rounds: nat): U64 {
    if rounds == 0 then next else SatAdd64(NextAfter(next, rounds - 1), 1)
  }

  lemma {:induction false} NextAfterIs(next: U64, rounds: nat)
    ensures NextAfter(next, rounds) == if next + rounds <= U64_MAX then next + rounds else U64_MAX
  {
    if rounds > 0 {
      NextAfterIs(next, rounds - 1);
    }
  }

  /**
   * The loop comes to a height above the tip, or to one whose fetch fails,
   * exactly when the tip is below the largest word or some fetch fails. For the
   * largest tip the next height saturates, and successful fetches go on forever.
   */
  lemma {:induction false} FetchLoopEndsIff(fetch: Fetch, next: U64, h: U64)
    ensures (exists rounds :: NextAfter(next, rounds) > h || fetch(NextAfter(next, rounds)).None?)
            <==> CanEnd(fetch, next, h)
  {
    if rounds :| NextAfter(next, rounds) > h || fetch(NextAfter(next, rounds)).None? {
      NextAfterIs(next, rounds);
    }
    if h < U64_MAX {
      NextAfterIs(next, h + 1);
      assert NextAfter(next, h + 1) > h;
    } else if k: U64 :| next <= k && fetch(k).None? {
      NextAfterIs(next, k - next);
      assert fetch(NextAfter(next, k - next)).None?;
    }
  }

  // ----- Consecutive blocks -----

  /** Heights ascend one by one. */
  ghost predicate Consecutive(blocks: seq<Block>) {
    forall i :: 0 <= i < |blocks| ==> blocks[i].height == blocks[0].height + i
  }

  lemma ConsecutiveTail(blocks: seq<Block>)
    requires Consecutive(blocks) && blocks != []
    ensures Consecutive(blocks[1..])
  {
  }

  lemma {:induction false} WithinMembers(blocks: seq<Block>, lo: nat, hi: nat)
    ensures forall b :: b in Within(blocks, lo, hi) <==> b in blocks && lo <= b.height <= hi
  {
    if blocks != [] {
      WithinMembers(blocks[1..], lo, hi);
      assert blocks == [blocks[0]] + blocks[1..];
    }
  }

  /** Cutting consecutive blocks to a range leaves consecutive blocks, from the larger of the two starts. */
  lemma {:induction false} WithinConsecutive(blocks: seq<Block>, lo: nat, hi: nat)
    requires Consecutive(blocks)
    ensures var part := Within(blocks, lo, hi);
            && Consecutive(part)
            && (part != [] ==> part[0].height == if lo >= blocks[0].height then lo else blocks[0].height)
  {
    if blocks == [] {
    } else {
      var rest := Within(blocks[1..], lo, hi);
      ConsecutiveTail(blocks);
      WithinConsecutive(blocks[1..], lo, hi);
      assert |blocks| > 1 ==> blocks[1..][0] == blocks[1];
      if lo <= blocks[0].height <= hi {
        ConsecutiveCons(blocks[0], rest);
      } else if blocks[0].height > hi {
        NothingWithinAbove(blocks[1..], lo, hi);
      }
    }
  }

  lemma ConsecutiveCons(b: Block, rest: seq<Block>)
    requires Consecutive(rest) && (rest != [] ==> rest[0].height == b.height + 1)
    ensures Consecutive([b] + rest)
  {
  }

  lemma {:induction false} NothingWithinAbove(blocks: seq<Block>, lo: nat, hi: nat)
    requires Consecutive(blocks) && (blocks != [] ==> blocks[0].height > hi)
    ensures Within(blocks, lo, hi) == []
  {
    if blocks != [] {
      ConsecutiveTail(blocks);
      assert |blocks| > 1 ==> blocks[1..][0] == blocks[1];
      NothingWithinAbove(blocks[1..], lo, hi);
    }
  }

  lemma {:induction false} TidyConsecutive(blocks: seq<Block>, h: U64)
    requires Consecutive(blocks)
    ensures Tidy(blocks, h) == Within(blocks, FirstHeight(h), h)
  {
    WithinConsecutive(blocks, FirstHeight(h), h);
    SortedStays(Lower, Within(blocks, FirstHeight(h), h));
  }

  /** Blocks of one window: consecutive, and between its first height and its tip. */
  ghost predicate InWindow(blocks: seq<Block>, h: U64) {
    && Consecutive(blocks)
    && (blocks != [] ==> FirstHeight(h) <= blocks[0].height && blocks[|blocks| - 1].height <= h)
  }

  lemma InWindowIsTidy(blocks: seq<Block>, h: U64)
    requires InWindow(blocks, h)
    ensures Tidy(blocks, h) == blocks
  {
    TidyConsecutive(blocks, h);
    AllWithin(blocks, FirstHeight(h), h);
  }

  lemma {:induction false} AllWithin(blocks: seq<Block>, lo: nat, hi: nat)
    requires Consecutive(blocks)
    requires blocks != [] ==> lo <= blocks[0].height && blocks[|blocks| - 1].height <= hi
    ensures Within(blocks, lo, hi) == blocks
  {
    if blocks != [] {
      ConsecutiveTail(blocks);
      assert |blocks| > 1 ==> blocks[1..][0] == blocks[1];
      AllWithin(blocks[1..], lo, hi);
      assert blocks == [blocks[0]] + blocks[1..];
    }
  }

  /** Whatever is cached and fetched, the blocks found ascend by height and lie in the window. */
  lemma FetchedIsTidy(fetch: Fetch, cached: seq<Block>, h: U64)
    requires FetchEnds(fetch, cached, h)
    ensures var blocks := Fetched(fetch, cached, h);
            && (forall i, j :: 0 <= i < j < |blocks| ==> blocks[i].height <= blocks[j].height)
            && (forall b :: b in blocks ==> FirstHeight(h) <= b.height <= h)
  {
    var start := Tidy(cached, h);
    var filled := Fill(fetch, start, NextHeight(start, h), h);
    LowerIsTotalPreorder();
    SortIsSorted(Lower, Within(filled, FirstHeight(h), h));
    SortPermutes(Lower, Within(filled, FirstHeight(h), h));
    WithinMembers(filled, FirstHeight(h), h);
    forall b | b in Fetched(fetch, cached, h)
      ensures FirstHeight(h) <= b.height <= h
    {
      SameElements(Fetched(fetch, cached, h), Within(filled, FirstHeight(h), h), b);
    }
    assert SortedBy(Lower, Fetched(fetch, cached, h));
  }

  lemma LowerIsTotalPreorder()
    ensures TotalPreorder(Lower)
  {
  }

  lemma TidyIsInWindow(blocks: seq<Block>, h: U64)
    requires Consecutive(blocks)
    ensures InWindow(Tidy(blocks, h), h)
  {
    TidyConsecutive(blocks, h);
    WithinMembers(blocks, FirstHeight(h), h);
    WithinConsecutive(blocks, FirstHeight(h), h);
  }

  /** A window holds at most six blocks. */
  lemma InWindowIsShort(blocks: seq<Block>, h: U64)
    requires InWindow(blocks, h) && h < U64_MAX
    ensures |blocks| <= LIMIT
  {
  }

  /** One more block, fetched for the next height, keeps the window consecutive. */
  lemma ExtendWindow(blocks: seq<Block>, b: Block, h: U64)
    requires InWindow(blocks, h) && h < U64_MAX
    requires b.height == NextHeight(blocks, h) <= h
    ensures InWindow(blocks + [b], h)
    ensures NextHeight(blocks + [b], h) == SatAdd64(b.height, 1)
  {
  }

  lemma {:induction false} FillStaysInWindow(fetch: Fetch, blocks: seq<Block>, h: U64)
    requires Faithful(fetch) && h < U64_MAX && InWindow(blocks, h)
    ensures InWindow(Fill(fetch, blocks, NextHeight(blocks, h), h), h)
    decreases h + 1 - NextHeight(blocks, h)
  {
    var next := NextHeight(blocks, h);
    if next <= h && fetch(next).Some? {
      ExtendWindow(blocks, fetch(next).value, h);
      FillStaysInWindow(fetch, blocks + [fetch(next).value], h);
    }
  }

  /** Completeness means that the last block is the tip. */
  lemma CompleteEndsAtTip(blocks: seq<Block>, h: U64)
    requires InWindow(blocks, h)
    ensures IsComplete(Some(h), blocks) <==> blocks != [] && blocks[|blocks| - 1].height == h
  {
  }

  // ----- Requests one after another, on one chain -----

  /** The blocks of a chain by height. */
  type Chain = U64 -> Block

  ghost predicate IsChain(chain: Chain) {
    forall h: U64 :: chain(h).height == h
  }

  /** Fetches from a chain fail or return its blocks. */
  ghost predicate FetchesFrom(fetch: Fetch, chain: Chain) {
    forall h: U64 :: fetch(h).Some? ==> fetch(h).value == chain(h)
  }

  /** A from-scratch read of `n` blocks starting at a height. */
  function Read(chain: Chain, lo: U64, n: nat): seq<Block>
    requires lo + n <= U64_MAX + 1
  {
    seq(n, i requires 0 <= i < n => chain(lo + i))
  }

  /** The whole window below a tip, read from scratch. */
  function Window(chain: Chain, h: U64): seq<Block> {
    Read(chain, FirstHeight(h), h + 1 - FirstHeight(h))
  }

  lemma ReadIsConsecutive(chain: Chain, lo: U64, n: nat)
    requires IsChain(chain) && lo + n <= U64_MAX + 1
    ensures Consecutive(Read(chain, lo, n))
  {
  }

  /** Every block is the one the chain has at its height. */
  ghost predicate FromChain(blocks: seq<Block>, chain: Chain) {
    forall i :: 0 <= i < |blocks| ==> blocks[i] == chain(blocks[i].height)
  }

  lemma ConsecutiveIsRead(blocks: seq<Block>, chain: Chain, lo: U64)
    requires Consecutive(blocks) && FromChain(blocks, chain) && lo + |blocks| <= U64_MAX + 1
    requires blocks != [] ==> blocks[0].height == lo
    ensures blocks == Read(chain, lo, |blocks|)
  {
  }

  /** The loop reads on from where it is, up to the tip or the first failure. */
  lemma FillReads(fetch: Fetch, chain: Chain, lo: U64, n: nat, h: U64) returns (m: nat)
    requires FetchesFrom(fetch, chain) && h < U64_MAX && lo + n <= h + 1
    ensures n <= m <= h + 1 - lo
    ensures Fill(fetch, Read(chain, lo, n), lo + n, h) == Read(chain, lo, m)
    ensures forall k: U64 :: lo + n <= k < lo + m ==> fetch(k).Some?
    ensures m < h + 1 - lo ==> fetch(lo + m).None?
    decreases h + 1 - n
  {
    m := n;
    if lo + n <= h && fetch(lo + n).Some? {
      assert Read(chain, lo, n) + [fetch(lo + n).value] == Read(chain, lo, n + 1);
      m := FillReads(fetch, chain, lo, n + 1, h);
    }
  }

  /** Where the blocks of an answer start: at the first cached block of the window, if there is one. */
  function StartOf(cached: seq<Block>, h: U64): U64 {
    if Tidy(cached, h) == [] then FirstHeight(h) else Tidy(cached, h)[0].height
  }

  /** Cutting blocks of the chain to a window leaves a stretch of the chain. */
  lemma TidyIsRead(cached: seq<Block>, chain: Chain, h: U64)
    requires IsChain(chain) && h < U64_MAX && Consecutive(cached) && FromChain(cached, chain)
    ensures var k := |Tidy(cached, h)|;
            && FirstHeight(h) <= StartOf(cached, h) <= h
            && StartOf(cached, h) + k <= h + 1
            && Tidy(cached, h) == Read(chain, StartOf(cached, h), k)
            && NextHeight(Tidy(cached, h), h) == StartOf(cached, h) + k
  {
    var start := Tidy(cached, h);
    WindowSize(h);
    TidyIsInWindow(cached, h);
    TidyConsecutive(cached, h);
    WithinMembers(cached, FirstHeight(h), h);
    forall i | 0 <= i < |start|
      ensures start[i] == chain(start[i].height)
    {
      assert start[i] in start && start[i] in cached;
    }
    if start != [] {
      assert start[|start| - 1].height == start[0].height + |start| - 1;
    }
    ConsecutiveIsRead(start, chain, StartOf(cached, h));
  }

  lemma ReadIsTidy(chain: Chain, lo: U64, m: nat, h: U64)
    requires IsChain(chain) && h < U64_MAX && FirstHeight(h) <= lo && lo + m <= h + 1
    ensures Tidy(Read(chain, lo, m), h) == Read(chain, lo, m)
  {
    ReadIsConsecutive(chain, lo, m);
    InWindowIsTidy(Read(chain, lo, m), h);
  }

  lemma FetchedFromReads(fetch: Fetch, start: seq<Block>, chain: Chain, h: U64, lo: U64, n: nat)
    returns (m: nat)
    requires IsChain(chain) && FetchesFrom(fetch, chain) && h < U64_MAX
    requires FirstHeight(h) <= lo && lo + n <= h + 1
    requires start == Read(chain, lo, n) && NextHeight(start, h) == lo + n
    ensures n <= m <= h + 1 - lo
    ensures FetchedFrom(fetch, start, h) == Read(chain, lo, m)
    ensures forall k: U64 :: lo + n <= k < lo + m ==> fetch(k).Some?
    ensures m < h + 1 - lo ==> fetch(lo + m).None?
  {
    m := FillReads(fetch, chain, lo, n, h);
    ReadIsTidy(chain, lo, m, h);
  }

  /**
   * What a fetch on a chain finds, whatever stretch of it is cached: it starts at
   * the first cached block of the window and goes on to the tip or the first
   * failure.
   */
  lemma FetchedIsRead(fetch: Fetch, cached: seq<Block>, chain: Chain, h: U64)
    returns (lo: U64, n: nat, m: nat)
    requires IsChain(chain) && FetchesFrom(fetch, chain) && h < U64_MAX
    requires Consecutive(cached) && FromChain(cached, chain)
    ensures lo == StartOf(cached, h) && n == |Tidy(cached, h)|
    ensures FirstHeight(h) <= lo <= h && n <= m <= h + 1 - lo
    ensures Fetched(fetch, cached, h) == Read(chain, lo, m)
    ensures forall k: U64 :: lo + n <= k < lo + m ==> fetch(k).Some?
    ensures m < h + 1 - lo ==> fetch(lo + m).None?
  {
    var start := Tidy(cached, h);
    lo, n := StartOf(cached, h), |start|;
    TidyIsRead(cached, chain, h);
    m := FetchedFromReads(fetch, start, chain, h, lo, n);
  }

  lemma ReadReachesTip(chain: Chain, lo: U64, m: nat, h: U64)
    requires IsChain(chain) && h < U64_MAX && FirstHeight(h) <= lo <= h && lo + m <= h + 1
    ensures IsComplete(Some(h), Read(chain, lo, m)) <==> m == h + 1 - lo
  {
    ReadIsConsecutive(chain, lo, m);
    CompleteEndsAtTip(Read(chain, lo, m), h);
  }

  /** The cache holds a stretch of the chain. */
  ghost predicate OnChain(cache: Cache, chain: Chain) {
    Consecutive(cache.blocks) && FromChain(cache.blocks, chain)
  }

  /** The cache holds a stretch of the chain that starts no higher than the window of `seen`. */
  ghost predicate Tracks(cache: Cache, chain: Chain, seen: U64) {
    && OnChain(cache, chain)
    && (cache.blocks != [] ==> cache.blocks[0].height <= FirstHeight(seen))
    && (cache.chainHeight.Some? ==>
          cache.chainHeight.value <= seen && cache.blocks == Window(chain, cache.chainHeight.value))
  }

  /** One request for any tip keeps the cache on the chain; a complete answer reaches from the start to the tip. */
  lemma RequestOnChain(fetch: Fetch, cache: Cache, chain: Chain, h: U64)
    requires IsChain(chain) && FetchesFrom(fetch, chain) && h < U64_MAX && OnChain(cache, chain)
    ensures OnChain(Respond(fetch, cache, Some(h)).0, chain)
    ensures cache.chainHeight != Some(h) && Respond(fetch, cache, Some(h)).0.chainHeight == Some(h) ==>
              && StartOf(cache.blocks, h) <= h
              && Respond(fetch, cache, Some(h)).1
                 == Read(chain, StartOf(cache.blocks, h), h + 1 - StartOf(cache.blocks, h))
  {
    if cache.chainHeight != Some(h) {
      var lo, n, m := FetchedIsRead(fetch, cache.blocks, chain, h);
      ReadIsConsecutive(chain, lo, m);
      ReadReachesTip(chain, lo, m, h);
    }
  }

  /** How an answer relates to the chain. */
  ghost predicate GoodAnswer(fetch: Fetch, chain: Chain, before: Cache, after: Cache, answer: seq<Block>, h: U64) {
    || (after.chainHeight == Some(h) && answer == Window(chain, h))
    || (exists m: nat :: && 0 < m < h + 1 - FirstHeight(h)
                         && after == Cache(None, answer)
                         && answer == Read(chain, FirstHeight(h), m)
                         && fetch(FirstHeight(h) + m).None?)
    || (&& after == before && answer == before.blocks && before.chainHeight != Some(h)
        && Tidy(before.blocks, h) == [] && fetch(FirstHeight(h)).None?)
  }

  lemma FirstHeightGrows(seen: U64, later: U64)
    requires seen <= later < U64_MAX
    ensures FirstHeight(seen) <= FirstHeight(later)
  {
    WindowSize(seen);
    WindowSize(later);
  }

  lemma StretchStartsAtWindow(cached: seq<Block>, h: U64)
    requires Consecutive(cached) && (cached != [] ==> cached[0].height <= FirstHeight(h))
    ensures StartOf(cached, h) == FirstHeight(h)
  {
    TidyConsecutive(cached, h);
    WithinConsecutive(cached, FirstHeight(h), h);
    WithinOfNone(FirstHeight(h), h);
  }

  lemma {:induction false} WithinOfNone(lo: nat, hi: nat)
    ensures Within([], lo, hi) == []
  {
  }

  /** Each request keeps the cache a stretch of the chain and gives a good answer. */
  lemma RequestTracks(fetch: Fetch, cache: Cache, chain: Chain, seen: U64, h: U64)
    requires IsChain(chain) && FetchesFrom(fetch, chain)
    requires seen <= h < U64_MAX && Tracks(cache, chain, seen)
    ensures var (after, answer) := Respond(fetch, cache, Some(h));
            && Tracks(after, chain, h)
            && GoodAnswer(fetch, chain, cache, after, answer, h)
  {
    FirstHeightGrows(seen, h);
    if cache.chainHeight != Some(h) {
      StretchStartsAtWindow(cache.blocks, h);
      MissTracks(fetch, cache, chain, h);
    }
  }

  lemma MissTracks(fetch: Fetch, cache: Cache, chain: Chain, h: U64)
    requires IsChain(chain) && FetchesFrom(fetch, chain) && h < U64_MAX
    requires Tracks(cache, chain, h) && cache.chainHeight != Some(h) && StartOf(cache.blocks, h) == FirstHeight(h)
    ensures var (after, answer) := Respond(fetch, cache, Some(h));
            && Tracks(after, chain, h)
            && GoodAnswer(fetch, chain, cache, after, answer, h)
  {
    var lo, n, m := FetchedIsRead(fetch, cache.blocks, chain, h);
    ReadIsConsecutive(chain, lo, m);
    ReadReachesTip(chain, lo, m, h);
    AfterFetchTracks(fetch, cache, chain, h, Read(chain, lo, m));
  }

  /** What the cache and the answer are after a fetch that found a stretch from the start of the window. */
  lemma AfterFetchTracks(fetch: Fetch, cache: Cache, chain: Chain, h: U64, blocks: seq<Block>)
    requires IsChain(chain) && h < U64_MAX && Tracks(cache, chain, h) && cache.chainHeight != Some(h)
    requires |blocks| <= h + 1 - FirstHeight(h) && blocks == Read(chain, FirstHeight(h), |blocks|)
    requires Consecutive(blocks) && (IsComplete(Some(h), blocks) <==> |blocks| == h + 1 - FirstHeight(h))
    requires |blocks| < h + 1 - FirstHeight(h) ==> fetch(FirstHeight(h) + |blocks|).None?
    requires blocks == [] ==> Tidy(cache.blocks, h) == []
    ensures var (after, answer) := AfterFetch(cache, h, blocks);
            && Tracks(after, chain, h)
            && GoodAnswer(fetch, chain, cache, after, answer, h)
  {
  }

  /** A request with the fetch outcomes it meets; a request without a tip reads the cache. */
  datatype Demand = Demand(tip: Option<U64>, fetch: Fetch)

  /** The demands have tips below the largest word. */
  ghost predicate Bounded(demands: seq<Demand>) {
    forall i :: 0 <= i < |demands| && demands[i].tip.Some? ==> demands[i].tip.value < U64_MAX
  }

  function Serve(demands: seq<Demand>): Cache
    requires Bounded(demands)
  {
    if demands == [] then Cache(None, [])
    else
      var last := demands[|demands| - 1];
      Respond(last.fetch, Serve(demands[..|demands| - 1]), last.tip).0
  }

  /** Requests for nondecreasing tips on one chain, with fetches that fail at will. */
  ghost predicate Ordered(demands: seq<Demand>, chain: Chain, seen: U64) {
    && AllFrom(demands, chain)
    && (forall i :: 0 <= i < |demands| && demands[i].tip.Some? ==> demands[i].tip.value <= seen)
    && forall i, j :: 0 <= i < j < |demands| && demands[i].tip.Some? && demands[j].tip.Some?
                      ==> demands[i].tip.value <= demands[j].tip.value
  }

  /** All fetches come from one chain. */
  ghost predicate AllFrom(demands: seq<Demand>, chain: Chain) {
    forall i :: 0 <= i < |demands| ==> FetchesFrom(demands[i].fetch, chain)
  }

  lemma {:induction false} ServeTracks(demands: seq<Demand>, chain: Chain, seen: U64)
    requires IsChain(chain) && Ordered(demands, chain, seen) && seen < U64_MAX
    ensures Tracks(Serve(demands), chain, seen)
  {
    if demands != [] {
      var last := demands[|demands| - 1];
      var before := demands[..|demands| - 1];
      if last.tip.None? {
        ServeTracks(before, chain, seen);
      } else {
        ServeTracks(before, chain, last.tip.value);
        RequestTracks(last.fetch, Serve(before), chain, last.tip.value, last.tip.value);
        FirstHeightGrows(last.tip.value, seen);
      }
    }
  }

  /**
   * For a fixed chain and requests with nondecreasing tips: an answer recorded
   * as complete is the whole window read from scratch, whatever partial fills
   * came before; an incomplete answer is the window up to the first height
   * whose fetch failed, or what was there before if not even the first came.
   */
  lemma {:induction false} AnswersMatchTheChain(demands: seq<Demand>, chain: Chain, h: U64, fetch: Fetch)
    requires IsChain(chain) && FetchesFrom(fetch, chain)
    requires h < U64_MAX && Ordered(demands, chain, h)
    ensures var before := Serve(demands);
            var (after, answer) := Respond(fetch, before, Some(h));
            && GoodAnswer(fetch, chain, before, after, answer, h)
            && (after.chainHeight == Some(h) <==> answer == Window(chain, h))
  {
    ServeTracks(demands, chain, h);
    RequestTracks(fetch, Serve(demands), chain, h, h);
    WindowIsTidy(chain, h);
  }

  lemma WindowIsTidy(chain: Chain, h: U64)
    requires IsChain(chain) && h < U64_MAX
    ensures Tidy(Window(chain, h), h) == Window(chain, h) != []
  {
    WindowSize(h);
    ReadIsConsecutive(chain, FirstHeight(h), h + 1 - FirstHeight(h));
    InWindowIsTidy(Window(chain, h), h);
  }

  // ----- The number of fetches -----

  lemma {:induction false} FillCountBound(fetch: Fetch, next: U64, h: U64)
    requires CanEnd(fetch, next, h)
    ensures FillCount(fetch, next, h) <= if next <= h then h + 1 - next else 0
    decreases h + 1 - next
  {
    if next <= h && fetch(next).Some? {
      FillCountBound(fetch, SatAdd64(next, 1), h);
    }
  }

  /** After any requests whose fetches return blocks of the heights asked for, the cache is a stretch of at most six. */
  lemma {:induction false} ServeStaysShort(demands: seq<Demand>)
    requires Bounded(demands) && forall i :: 0 <= i < |demands| ==> Faithful(demands[i].fetch)
    ensures Consecutive(Serve(demands).blocks) && |Serve(demands).blocks| <= LIMIT
  {
    if demands != [] {
      var last, before := demands[|demands| - 1], demands[..|demands| - 1];
      ServeStaysShort(before);
      if last.tip.Some? {
        TidyIsInWindow(Serve(before).blocks, last.tip.value);
        FetchedIsShort(last.fetch, Serve(before).blocks, last.tip.value);
      }
    }
  }

  lemma FetchedIsShort(fetch: Fetch, cached: seq<Block>, h: U64)
    requires Faithful(fetch) && Consecutive(cached) && h < U64_MAX
    ensures Consecutive(Fetched(fetch, cached, h)) && |Fetched(fetch, cached, h)| <= LIMIT
  {
    TidyIsInWindow(cached, h);
    var start := Tidy(cached, h);
    FillStaysInWindow(fetch, start, h);
    InWindowIsTidy(Fill(fetch, start, NextHeight(start, h), h), h);
    InWindowIsShort(Fetched(fetch, cached, h), h);
  }

  lemma NextIsInWindow(cached: seq<Block>, h: U64)
    requires Consecutive(cached) && h < U64_MAX
    ensures FirstHeight(h) <= NextHeight(Tidy(cached, h), h)
  {
    TidyIsInWindow(cached, h);
    var start := Tidy(cached, h);
    if start != [] {
      assert start[|start| - 1].height == start[0].height + |start| - 1;
    }
  }

  /** Whatever was requested before, a request fetches at most six blocks. */
  lemma {:induction false} AtMostSixFetches(demands: seq<Demand>, fetch: Fetch, h: U64)
    requires Bounded(demands) && forall i :: 0 <= i < |demands| ==> Faithful(demands[i].fetch)
    requires h < U64_MAX
    ensures RequestFetches(fetch, Serve(demands), Some(h)) <= LIMIT
  {
    ServeStaysShort(demands);
    var cached := Serve(demands).blocks;
    NextIsInWindow(cached, h);
    FillCountBound(fetch, NextHeight(Tidy(cached, h), h), h);
    WindowSize(h);
  }

  // ----- Requests with any tips -----

  lemma {:induction false} ServeIsOnChain(demands: seq<Demand>, chain: Chain)
    requires IsChain(chain) && Bounded(demands) && AllFrom(demands, chain)
    ensures OnChain(Serve(demands), chain)
  {
    if demands != [] {
      var last, before := demands[|demands| - 1], demands[..|demands| - 1];
      ServeIsOnChain(before, chain);
      if last.tip.Some? {
        RequestOnChain(last.fetch, Serve(before), chain, last.tip.value);
      }
    }
  }

  /** The cache has the first block of the window, or none of its blocks. */
  predicate FillsFromStart(cached: seq<Block>, h: U64) {
    || (exists i :: 0 <= i < |cached| && cached[i].height == FirstHeight(h))
    || (forall i :: 0 <= i < |cached| ==> !(FirstHeight(h) <= cached[i].height <= h))
  }

  lemma StartsAtWindowIff(cached: seq<Block>, h: U64)
    requires Consecutive(cached) && h < U64_MAX
    ensures StartOf(cached, h) == FirstHeight(h) <==> FillsFromStart(cached, h)
  {
    var start := Tidy(cached, h);
    WindowSize(h);
    TidyConsecutive(cached, h);
    WithinMembers(cached, FirstHeight(h), h);
    TidyIsInWindow(cached, h);
    if i :| 0 <= i < |cached| && cached[i].height == FirstHeight(h) {
      assert cached[i] in start;
      var j :| 0 <= j < |start| && start[j] == cached[i];
    }
    if start != [] {
      assert start[0] in start && start[0] in cached;
    } else {
      assert forall i :: 0 <= i < |cached| ==> cached[i] !in start;
    }
  }

  /**
   * After requests for any tips in any order on one chain, an answer newly
   * recorded as complete is the whole window if and only if the cache had the
   * first block of that window or none of its blocks.
   */
  lemma {:induction false} CompleteIsWindowIff(demands: seq<Demand>, chain: Chain, fetch: Fetch, h: U64)
    requires IsChain(chain) && Bounded(demands) && AllFrom(demands, chain) && FetchesFrom(fetch, chain)
    requires h < U64_MAX && Serve(demands).chainHeight != Some(h)
    requires Respond(fetch, Serve(demands), Some(h)).0.chainHeight == Some(h)
    ensures Respond(fetch, Serve(demands), Some(h)).1 == Window(chain, h)
            <==> FillsFromStart(Serve(demands).blocks, h)
  {
    ServeIsOnChain(demands, chain);
    RequestOnChain(fetch, Serve(demands), chain, h);
    StartsAtWindowIff(Serve(demands).blocks, h);
    var lo := StartOf(Serve(demands).blocks, h);
    assert |Read(chain, lo, h + 1 - lo)| == h + 1 - lo;
    assert |Window(chain, h)| == h + 1 - FirstHeight(h);
  }

  /** All blocks of a chain but one. */
  function AllBut(chain: Chain, height: U64): Fetch {
    (k: U64) => if k == height then None else Some(chain(k))
  }

  /** A tip below an earlier one: the answer is recorded as complete although its first block is missing. */
  function LowerTip(chain: Chain): seq<Demand> {
    [Demand(Some(11), AllBut(chain, 7)), Demand(Some(10), AllBut(chain, 0))]
  }

  lemma LowerTipIsOnChain(chain: Chain)
    ensures Bounded(LowerTip(chain)) && AllFrom(LowerTip(chain), chain)
  {
  }

  lemma {:induction false} LowerTipSkipsABlock(chain: Chain, demands: seq<Demand>)
    requires IsChain(chain) && demands == LowerTip(chain)
    ensures Bounded(demands) && AllFrom(demands, chain)
    ensures Serve(demands) == Cache(Some(10), Read(chain, 6, 5))
    ensures Read(chain, 6, 5) != Window(chain, 10)
  {
    LowerTipIsOnChain(chain);
    FirstTip(chain);
    SecondTip(chain);
    ServeTwo(demands, Cache(None, Read(chain, 6, 1)), Cache(Some(10), Read(chain, 6, 5)));
    WindowLength(chain, 10);
  }

  lemma WindowLength(chain: Chain, h: U64)
    requires h < U64_MAX
    ensures |Window(chain, h)| == Min(LIMIT, h + 1)
  {
    WindowSize(h);
  }

  lemma {:induction false} ServeTwo(demands: seq<Demand>, first: Cache, second: Cache)
    requires |demands| == 2 && Bounded(demands) && demands[0].tip.Some? && demands[1].tip.Some?
    requires Respond(demands[0].fetch, Cache(None, []), demands[0].tip).0 == first
    requires Respond(demands[1].fetch, first, demands[1].tip).0 == second
    ensures Serve(demands) == second
  {
    var one := demands[..1];
    assert one[..0] == [];
    assert Serve(one) == Respond(demands[0].fetch, Serve([]), demands[0].tip).0;
  }

  lemma FirstTip(chain: Chain)
    requires IsChain(chain)
    ensures Respond(AllBut(chain, 7), Cache(None, []), Some(11)) == (Cache(None, Read(chain, 6, 1)), Read(chain, 6, 1))
  {
    var lo, n, m := FetchedIsRead(AllBut(chain, 7), [], chain, 11);
    WithinOfNone(FirstHeight(11), 11);
    assert lo == 6 && n == 0 && m == 1;
    ReadReachesTip(chain, 6, 1, 11);
  }

  lemma SecondTip(chain: Chain)
    requires IsChain(chain)
    ensures Respond(AllBut(chain, 0), Cache(None, Read(chain, 6, 1)), Some(10))
            == (Cache(Some(10), Read(chain, 6, 5)), Read(chain, 6, 5))
  {
    var cached := Read(chain, 6, 1);
    ReadIsTidy(chain, 6, 1, 10);
    var lo, n, m := FetchedIsRead(AllBut(chain, 0), cached, chain, 10);
    assert lo == 6 && m == 5;
    ReadReachesTip(chain, 6, 5, 10);
  }

  // ----- Requests without a tip -----

  /** The last request with a tip. */
  ghost predicate LastWithTip(demands: seq<Demand>, i: nat) {
    i < |demands| && demands[i].tip.Some? && forall j :: i < j < |demands| ==> demands[j].tip.None?
  }

  /** What request `i` was answered. */
  function AnswerTo(demands: seq<Demand>, i: nat): seq<Block>
    requires Bounded(demands) && i < |demands|
  {
    Respond(demands[i].fetch, Serve(demands[..i]), demands[i].tip).1
  }

  lemma {:induction false} CacheIsLastAnswer(demands: seq<Demand>, i: nat)
    requires Bounded(demands) && LastWithTip(demands, i)
    ensures Serve(demands).blocks == AnswerTo(demands, i)
  {
    var before, last := demands[..|demands| - 1], |demands| - 1;
    if i < last {
      CacheIsLastAnswer(before, i);
      assert before[..i] == demands[..i] && before[i] == demands[i];
    }
  }

  lemma {:induction false} NothingServed(demands: seq<Demand>)
    requires Bounded(demands) && forall i :: 0 <= i < |demands| ==> demands[i].tip.None?
    ensures Serve(demands) == Cache(None, [])
  {
    if demands != [] {
      NothingServed(demands[..|demands| - 1]);
    }
  }

  /**
   * After any requests, one without a tip fetches nothing, leaves the cache alone
   * and is answered what the last request with a tip was answered, or nothing if
   * there was none.
   */
  lemma {:induction false} NoTipRepeatsLastAnswer(demands: seq<Demand>, fetch: Fetch)
    requires Bounded(demands)
    ensures RequestFetches(fetch, Serve(demands), None) == 0
    ensures Respond(fetch, Serve(demands), None).0 == Serve(demands)
    ensures forall i: nat :: LastWithTip(demands, i) ==> Respond(fetch, Serve(demands), None).1 == AnswerTo(demands, i)
    ensures (forall i :: 0 <= i < |demands| ==> demands[i].tip.None?) ==>
              Respond(fetch, Serve(demands), None).1 == []
  {
    forall i: nat | LastWithTip(demands, i)
      ensures Respond(fetch, Serve(demands), None).1 == AnswerTo(demands, i)
    {
      CacheIsLastAnswer(demands, i);
    }
    if forall i :: 0 <= i < |demands| ==> demands[i].tip.None? {
      NothingServed(demands);
    }
  }
}
