/**
 * The search space of one piece of work: how `mine_worker` strides over
 * (nonce, ntime) pairs with 32-bit wrapping arithmetic, and why the workers of
 * one group share the space out without gaps or overlaps.
 */
module NonceSearch {
  import opened Words
  import opened MiningTypes

  /** One pass of the worker loop after a miss. */
  function Advance(c: Candidate, count: U32): Candidate {
    var nextNonce := WrapAdd32(c.nonce, count);
    Candidate(nextNonce, if nextNonce < c.nonce then WrapAdd32(c.ntime, 1) else c.ntime)
  }

  /** The pair a worker holds after `k` misses, step by step. */
  function Nth(base: U32, count: U32, index: U32, k: nat): Candidate {
    if k == 0 then Candidate(index, base) else Advance(Nth(base, count, index, k - 1), count)
  }

  /** The pair at a position of the search space laid out nonce first. */
  function PairAt(base: U32, position: nat): Candidate {
    Candidate(position % TWO32, (base + position / TWO32) % TWO32)
  }

  /** The position below 2^64 at which a pair sits. */
  function PositionOf(base: U32, c: Candidate): nat {
    (c.ntime - base) % TWO32 * TWO32 + c.nonce
  }

  lemma AdvanceMovesByCount(base: U32, count: U32, position: nat)
    ensures Advance(PairAt(base, position), count) == PairAt(base, position + count)
  {
    var q, r := position / TWO32, position % TWO32;
    assert position == q * TWO32 + r;
    if r + count < TWO32 {
      assert (position + count) / TWO32 == q && (position + count) % TWO32 == r + count;
    } else {
      assert (position + count) / TWO32 == q + 1 && (position + count) % TWO32 == r + count - TWO32;
    }
  }

  /** Where iteration `k` of worker `index` stands in the search space. */
  function Position(index: nat, count: U32, k: nat): nat {
    if k == 0 then index else Position(index, count, k - 1) + count
  }

  lemma {:induction false} PositionIs(index: nat, count: U32, k: nat)
    ensures Position(index, count, k) == index + k * count
  {
    if k == 0 {
    } else {
      PositionIs(index, count, k - 1);
      assert k * count == (k - 1) * count + count;
    }
  }

  lemma {:induction false} NthIsAtPosition(base: U32, count: U32, index: U32, k: nat)
    ensures Nth(base, count, index, k) == PairAt(base, Position(index, count, k))
  {
    if k == 0 {
    } else {
      NthIsAtPosition(base, count, index, k - 1);
      AdvanceMovesByCount(base, count, Position(index, count, k - 1));
    }
  }

  /** Iteration `k` of worker `index` tests the pair at position `index + k * count`. */
  lemma {:induction false} StrideClosedForm(base: U32, count: U32, index: U32, k: nat)
    ensures Nth(base, count, index, k) == PairAt(base, index + k * count)
  {
    NthIsAtPosition(base, count, index, k);
    PositionIs(index, count, k);
  }

  lemma PairAtIsInjective(base: U32, position: nat)
    requires position < TWO64
    ensures PositionOf(base, PairAt(base, position)) == position
  {
    var q := position / TWO32;
    assert q < TWO32;
    assert ((base + q) % TWO32 - base) % TWO32 == q;
  }

  lemma PairAtIsOnto(base: U32, c: Candidate)
    ensures PositionOf(base, c) < TWO64
    ensures PairAt(base, PositionOf(base, c)) == c
  {
    var q := (c.ntime - base) % TWO32;
    var position := PositionOf(base, c);
    assert position / TWO32 == q && position % TWO32 == c.nonce;
    assert (base + q) % TWO32 == c.ntime;
  }

  lemma StrideSplit(position: nat, count: U32)
    requires count >= 1
    ensures position % count + position / count * count == position
  {
  }

  lemma LaterRoundIsBeyond(k: nat, l: nat, count: nat)
    requires k < l
    ensures l * count >= k * count + count
  {
    var d: nat := l - k - 1;
    assert l * count == (k + 1 + d) * count == k * count + count + d * count;
  }

  lemma StrideSplitIsUnique(i: nat, k: nat, j: nat, l: nat, count: nat)
    requires i < count && j < count
    requires i + k * count == j + l * count
    ensures i == j && k == l
  {
    if k < l {
      LaterRoundIsBeyond(k, l, count);
    } else if l < k {
      LaterRoundIsBeyond(l, k, count);
    }
  }

  /** Worker `index` of `count` tests `c` at its iteration `k`, among the first 2^64 candidates. */
  ghost predicate Tests(base: U32, count: U32, index: U32, k: nat, c: Candidate) {
    && index < count
    && Position(index, count, k) < TWO64
    && Nth(base, count, index, k) == c
  }

  lemma SomeWorkerTests(base: U32, count: U32, c: Candidate) returns (index: U32, k: nat)
    requires count >= 1
    ensures Tests(base, count, index, k, c)
  {
    var position := PositionOf(base, c);
    PairAtIsOnto(base, c);
    StrideSplit(position, count);
    index, k := position % count, position / count;
    PositionIs(index, count, k);
    NthIsAtPosition(base, count, index, k);
  }

  /** A tested pair reveals the position it was tested at. */
  lemma {:induction false} TestedAtItsPosition(base: U32, count: U32, index: U32, k: nat, c: Candidate)
    requires Tests(base, count, index, k, c)
    ensures PositionOf(base, c) == Position(index, count, k)
  {
    NthIsAtPosition(base, count, index, k);
    PairAtIsInjective(base, Position(index, count, k));
  }

  lemma NoTwoWorkersTest(base: U32, count: U32, c: Candidate, i: U32, k: nat, j: U32, l: nat)
    requires Tests(base, count, i, k, c) && Tests(base, count, j, l, c)
    ensures i == j && k == l
  {
    TestedAtItsPosition(base, count, i, k, c);
    TestedAtItsPosition(base, count, j, l, c);
    PositionIs(i, count, k);
    PositionIs(j, count, l);
    StrideSplitIsUnique(i, k, j, l, count);
  }

  /**
   * Partition of the search space: for every worker count, also one that does
   * not divide 2^32, each of the 2^64 pairs is tested by exactly one worker at
   * exactly one iteration among the first 2^64 candidates.
   */
  lemma EveryPairTestedExactlyOnce(base: U32, count: U32, c: Candidate)
    requires count >= 1
    ensures exists index: U32, k: nat :: Tests(base, count, index, k, c)
    ensures forall i: U32, k: nat, j: U32, l: nat ::
              Tests(base, count, i, k, c) && Tests(base, count, j, l, c) ==> i == j && k == l
  {
    var index, k := SomeWorkerTests(base, count, c);
    forall i: U32, k: nat, j: U32, l: nat |
      Tests(base, count, i, k, c) && Tests(base, count, j, l, c)
      ensures i == j && k == l
    {
      NoTwoWorkersTest(base, count, c, i, k, j, l);
    }
  }

  /** Positions a multiple of 2^64 apart hold the same pair. */
  lemma PairAtModulo(base: U32, position: nat)
    ensures PairAt(base, position) == PairAt(base, position % TWO64)
  {
    var q, r := position / TWO64, position % TWO64;
    assert position == q * TWO64 + r;
    assert position / TWO32 == q * TWO32 + r / TWO32;
    assert position % TWO32 == r % TWO32;
    assert (base + q * TWO32 + r / TWO32) % TWO32 == (base + r / TWO32) % TWO32;
  }

  lemma SamePairIff(base: U32, position: nat, other: nat)
    ensures PairAt(base, position) == PairAt(base, other) <==> position % TWO64 == other % TWO64
  {
    PairAtModulo(base, position);
    PairAtModulo(base, other);
    PairAtIsInjective(base, position % TWO64);
    PairAtIsInjective(base, other % TWO64);
  }

  /**
   * A worker holds the same pair at two iterations exactly when their positions
   * differ by a multiple of 2^64: the search repeats itself, and not earlier.
   */
  lemma {:induction false} SearchWrapsAround(base: U32, count: U32, index: U32, k: nat, l: nat)
    ensures Nth(base, count, index, k) == Nth(base, count, index, l)
            <==> Position(index, count, k) % TWO64 == Position(index, count, l) % TWO64
  {
    NthIsAtPosition(base, count, index, k);
    NthIsAtPosition(base, count, index, l);
    SamePairIff(base, Position(index, count, k), Position(index, count, l));
  }

  // ----- One worker -----

  /** The pair that worker `index` tests at iteration `k`. */
  function Track(work: MiningWork, count: U32, index: nat, k: nat): Candidate {
    PairAt(work.ntime, Position(index, count, k))
  }

  /** The worker's first `k` pairs do not meet the target. */
  ghost predicate MissesBefore(meets: Meets, work: MiningWork, count: U32, index: nat, k: nat) {
    forall j: nat :: j < k ==> !Hits(meets, work, Track(work, count, index, j))
  }

  /**
   * Where a worker is that has made the given reads of the cancel flag: it has
   * tested `misses` pairs in vain, each after a read that saw the flag unset,
   * and one more with success exactly if `hit`. Otherwise its last read, if it
   * made one more, saw the flag set.
   */
  ghost predicate MinedTo(
      meets: Meets, work: MiningWork, count: U32, index: nat, loads: seq<bool>, misses: nat, hit: bool) {
    && misses <= |loads|
    && (forall j :: 0 <= j < misses ==> !loads[j])
    && MissesBefore(meets, work, count, index, misses)
    && (hit <==> misses < |loads| && !loads[misses])
    && (hit ==> Hits(meets, work, Track(work, count, index, misses)))
  }

  /** The reads of the flag leave a worker no choice. */
  lemma MinedToIsUnique(
      meets: Meets, work: MiningWork, count: U32, index: nat, loads: seq<bool>,
      misses: nat, hit: bool, misses': nat, hit': bool)
    requires MinedTo(meets, work, count, index, loads, misses, hit)
    requires MinedTo(meets, work, count, index, loads, misses', hit')
    ensures misses == misses' && hit == hit'
  {
    var here, there := Track(work, count, index, misses), Track(work, count, index, misses');
    assert misses < misses' ==> misses < |loads|;
    assert misses' < misses ==> misses' < |loads|;
  }

  /**
   * One worker thread. `loads[k]` is what the k-th read of the shared cancel
   * flag returns and `swapSaw` what the atomic swap returns, so the contract
   * covers every behaviour of the other threads; the thread is followed for
   * `|loads|` reads.
   *
   * `misses` is the number of pairs tested without a hit. The worker stops at
   * the first read that sees the flag or at the first pair that meets the
   * target, and sends exactly when it hit and saw the flag unset. A pair meets
   * the target when the header with the work's fields and that pair does.
   */
  method MineWorker(work: MiningWork, index: U32, count: U32, meets: Meets, loads: seq<bool>, swapSaw: bool)
    returns (misses: nat, hit: bool, sent: Option<FoundShare>)
    ensures MinedTo(meets, work, count, index, loads, misses, hit)
    ensures sent == if hit && !swapSaw then Some(ShareOf(work, Track(work, count, index, misses))) else None
    ensures forall j: nat :: j < misses ==>
              var c := Track(work, count, index, j);
              !meets(work.target, Header(version := work.version, prevBlockHash := work.prevHash,
                                         merkleRoot := work.merkleRoot, time := c.ntime, bits := work.nbits,
                                         nonce := c.nonce))
    ensures sent.Some? ==>
              && sent.value.channelId == work.channelId && sent.value.jobId == work.jobId
              && sent.value.version == work.version && sent.value.sequenceNumber == 0
              && meets(work.target, Header(version := work.version, prevBlockHash := work.prevHash,
                                           merkleRoot := work.merkleRoot, time := sent.value.ntime,
                                           bits := work.nbits, nonce := sent.value.nonce))
  {
    var nonce, ntime := index, work.ntime;
    misses, hit, sent := 0, false, None;
    while misses < |loads| && !loads[misses]
      invariant 0 <= misses <= |loads|
      invariant !hit && sent.None?
      invariant Candidate(nonce, ntime) == Nth(work.ntime, count, index, misses)
      invariant forall j :: 0 <= j < misses ==> !loads[j]
      invariant MissesBefore(meets, work, count, index, misses)
    {
      NthIsAtPosition(work.ntime, count, index, misses);
      if Hits(meets, work, Candidate(nonce, ntime)) {
        hit := true;
        if !swapSaw {
          sent := Some(ShareOf(work, Candidate(nonce, ntime)));
        }
        break;
      }
      var nextNonce := WrapAdd32(nonce, count);
      if nextNonce < nonce {
        ntime := WrapAdd32(ntime, 1);
      }
      nonce := nextNonce;
      misses := misses + 1;
    }
  }
}
