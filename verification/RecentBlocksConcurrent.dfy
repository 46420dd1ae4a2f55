/**
 * Concurrent status requests on one recent-blocks cache. Each section that
 * holds the cache lock is one atomic step, and so is each block fetch; the
 * steps of different requests interleave arbitrarily.
 */
module RecentBlocksConcurrent {
  import opened Words
  import opened RecentBlocks

  /** Where a request is between its lock sections. */
  datatype Request =
    | Arrived(asked: Option<U64>)
    | Missed(tip: U64, previous: seq<Block>)
    | Filling(tip: U64, previous: seq<Block>, blocks: seq<Block>, next: U64)
    | Stopped(tip: U64, previous: seq<Block>, blocks: seq<Block>)
    | Answered(answer: seq<Block>)

  datatype State = State(cache: Cache, requests: seq<Request>)

  datatype Step =
    | Arrive(tip: Option<U64>)
    | Look(r: nat)
    | Load(r: nat)
    | FetchNext(r: nat, result: Option<Block>)
    | Exhaust(r: nat)
    | Store(r: nat)

  function Init(): State {
    State(Cache(None, []), [])
  }

  /** Tips below the largest word; fetched blocks have the height asked for. */
  predicate Enabled(s: State, step: Step) {
    match step
    case Arrive(tip) => tip.Some? ==> tip.value < U64_MAX
    case Look(r) => r < |s.requests| && s.requests[r].Arrived?
    case Load(r) => r < |s.requests| && s.requests[r].Missed?
    case FetchNext(r, result) =>
      && r < |s.requests| && s.requests[r].Filling? && s.requests[r].next <= s.requests[r].tip
      && (result.Some? ==> result.value.height == s.requests[r].next)
    case Exhaust(r) => r < |s.requests| && s.requests[r].Filling? && s.requests[r].next > s.requests[r].tip
    case Store(r) => r < |s.requests| && s.requests[r].Stopped?
  }

  function Set(s: State, r: nat, request: Request): State
    requires r < |s.requests|
  {
    s.(requests := s.requests[r := request])
  }

  function Apply(s: State, step: Step): State
    requires Enabled(s, step)
  {
    match step
    case Arrive(tip) => s.(requests := s.requests + [Arrived(tip)])
    case Look(r) =>
      var tip := s.requests[r].asked;
      if s.cache.chainHeight == tip || tip.None? then Set(s, r, Answered(s.cache.blocks))
      else Set(s, r, Missed(tip.value, s.cache.blocks))
    case Load(r) =>
      var Missed(tip, previous) := s.requests[r];
      var start := Tidy(s.cache.blocks, tip);
      Set(s, r, Filling(tip, previous, start, NextHeight(start, tip)))
    case FetchNext(r, result) =>
      var Filling(tip, previous, blocks, next) := s.requests[r];
      if result.Some? then Set(s, r, Filling(tip, previous, blocks + [result.value], SatAdd64(next, 1)))
      else Set(s, r, Stopped(tip, previous, Tidy(blocks, tip)))
    case Exhaust(r) =>
      var Filling(tip, previous, blocks, _) := s.requests[r];
      Set(s, r, Stopped(tip, previous, Tidy(blocks, tip)))
    case Store(r) =>
      var Stopped(tip, previous, blocks) := s.requests[r];
      if IsComplete(Some(tip), blocks) then Set(s.(cache := Cache(Some(tip), blocks)), r, Answered(blocks))
      else if blocks == [] then Set(s, r, Answered(previous))
      else Set(s.(cache := Cache(None, blocks)), r, Answered(blocks))
  }

  function Run(s: State, steps: seq<Step>): Option<State>
    decreases |steps|
  {
    if steps == [] then Some(s)
    else if Enabled(s, steps[0]) then Run(Apply(s, steps[0]), steps[1..])
    else None
  }

  // ----- What every interleaving keeps -----

  /** At most six blocks with consecutive ascending heights. */
  ghost predicate Short(blocks: seq<Block>) {
    Consecutive(blocks) && |blocks| <= LIMIT
  }

  /** A recorded tip is the last cached block. */
  ghost predicate CacheOk(cache: Cache) {
    && Short(cache.blocks)
    && (cache.chainHeight.Some? ==>
          cache.blocks != [] && cache.blocks[|cache.blocks| - 1].height == cache.chainHeight.value)
  }

  ghost predicate RequestOk(request: Request) {
    match request
    case Arrived(tip) => tip.Some? ==> tip.value < U64_MAX
    case Missed(tip, previous) => tip < U64_MAX && Short(previous)
    case Filling(tip, previous, blocks, next) =>
      tip < U64_MAX && Short(previous) && InWindow(blocks, tip) && next == NextHeight(blocks, tip)
    case Stopped(tip, previous, blocks) => tip < U64_MAX && Short(previous) && InWindow(blocks, tip)
    case Answered(answer) => Short(answer)
  }

  ghost predicate Inv(s: State) {
    CacheOk(s.cache) && forall r :: 0 <= r < |s.requests| ==> RequestOk(s.requests[r])
  }

  /** One request moves on and leaves the others as they are. */
  lemma SetKeeps(s: State, r: nat, request: Request)
    requires Inv(s) && r < |s.requests| && RequestOk(request)
    ensures Inv(Set(s, r, request))
  {
  }

  lemma LoadKeeps(s: State, r: nat)
    requires Inv(s) && Enabled(s, Load(r))
    ensures Inv(Apply(s, Load(r)))
  {
    assert RequestOk(s.requests[r]);
    var Missed(tip, previous) := s.requests[r];
    TidyIsInWindow(s.cache.blocks, tip);
    var start := Tidy(s.cache.blocks, tip);
    SetKeeps(s, r, Filling(tip, previous, start, NextHeight(start, tip)));
  }

  lemma FetchKeeps(s: State, r: nat, result: Option<Block>)
    requires Inv(s) && Enabled(s, FetchNext(r, result))
    ensures Inv(Apply(s, FetchNext(r, result)))
  {
    assert RequestOk(s.requests[r]);
    var Filling(tip, previous, blocks, next) := s.requests[r];
    if result.Some? {
      ExtendWindow(blocks, result.value, tip);
      SetKeeps(s, r, Filling(tip, previous, blocks + [result.value], SatAdd64(next, 1)));
    } else {
      InWindowIsTidy(blocks, tip);
      SetKeeps(s, r, Stopped(tip, previous, Tidy(blocks, tip)));
    }
  }

  lemma StoreKeeps(s: State, r: nat)
    requires Inv(s) && Enabled(s, Store(r))
    ensures Inv(Apply(s, Store(r)))
  {
    assert RequestOk(s.requests[r]);
    var Stopped(tip, previous, blocks) := s.requests[r];
    InWindowIsShort(blocks, tip);
    CompleteEndsAtTip(blocks, tip);
    SetKeeps(s, r, Answered(blocks));
    SetKeeps(s, r, Answered(previous));
  }

  lemma StepKeeps(s: State, step: Step)
    requires Inv(s) && Enabled(s, step)
    ensures Inv(Apply(s, step))
  {
    match step
    case Arrive(tip) =>
    case Look(r) =>
      assert RequestOk(s.requests[r]);
    case Load(r) => LoadKeeps(s, r);
    case FetchNext(r, result) => FetchKeeps(s, r, result);
    case Exhaust(r) =>
      assert RequestOk(s.requests[r]);
      InWindowIsTidy(s.requests[r].blocks, s.requests[r].tip);
    case Store(r) => StoreKeeps(s, r);
  }

  lemma {:induction false} RunKeeps(s: State, steps: seq<Step>)
    requires Inv(s)
    ensures Run(s, steps).Some? ==> Inv(Run(s, steps).value)
    decreases |steps|
  {
    if steps != [] && Enabled(s, steps[0]) {
      StepKeeps(s, steps[0]);
      RunKeeps(Apply(s, steps[0]), steps[1..]);
    }
  }

  /**
   * Under every interleaving, with arbitrary tips and arbitrary fetch failures,
   * the cache holds at most six blocks with consecutive ascending heights, a
   * recorded tip is the height of the last cached block, and every answer given
   * is at most six consecutive blocks as well.
   */
  lemma {:induction false} CacheIsAlwaysShort(steps: seq<Step>)
    requires Run(Init(), steps).Some?
    ensures var s := Run(Init(), steps).value;
            && CacheOk(s.cache)
            && forall r :: 0 <= r < |s.requests| && s.requests[r].Answered? ==> Short(s.requests[r].answer)
  {
    RunKeeps(Init(), steps);
  }

  // ----- Blocks of one chain -----

  /** A fetch that succeeds returns the chain's block. */
  ghost predicate FetchesChain(step: Step, chain: Chain) {
    step.FetchNext? && step.result.Some? ==> step.result.value == chain(step.result.value.height)
  }

  ghost predicate RequestFromChain(request: Request, chain: Chain) {
    match request
    case Arrived(_) => true
    case Missed(_, previous) => FromChain(previous, chain)
    case Filling(_, previous, blocks, _) => FromChain(previous, chain) && FromChain(blocks, chain)
    case Stopped(_, previous, blocks) => FromChain(previous, chain) && FromChain(blocks, chain)
    case Answered(answer) => FromChain(answer, chain)
  }

  ghost predicate StateFromChain(s: State, chain: Chain) {
    && FromChain(s.cache.blocks, chain)
    && forall r :: 0 <= r < |s.requests| ==> RequestFromChain(s.requests[r], chain)
  }

  lemma TidyFromChain(blocks: seq<Block>, h: U64, chain: Chain)
    requires Consecutive(blocks) && FromChain(blocks, chain)
    ensures FromChain(Tidy(blocks, h), chain)
  {
    TidyConsecutive(blocks, h);
    WithinMembers(blocks, FirstHeight(h), h);
    forall i | 0 <= i < |Tidy(blocks, h)|
      ensures Tidy(blocks, h)[i] == chain(Tidy(blocks, h)[i].height)
    {
      assert Tidy(blocks, h)[i] in Tidy(blocks, h) && Tidy(blocks, h)[i] in blocks;
    }
  }

  lemma StepStaysOnChain(s: State, step: Step, chain: Chain)
    requires Inv(s) && Enabled(s, step) && FetchesChain(step, chain) && StateFromChain(s, chain)
    ensures StateFromChain(Apply(s, step), chain)
  {
    if !step.Arrive? {
      var request := s.requests[step.r];
      assert RequestOk(request) && RequestFromChain(request, chain);
      if step.Load? {
        TidyFromChain(s.cache.blocks, request.tip, chain);
      } else if request.Filling? {
        TidyFromChain(request.blocks, request.tip, chain);
      }
    }
  }

  lemma {:induction false} RunStaysOnChain(s: State, steps: seq<Step>, chain: Chain)
    requires Inv(s) && StateFromChain(s, chain) && Run(s, steps).Some?
    requires forall i :: 0 <= i < |steps| ==> FetchesChain(steps[i], chain)
    ensures StateFromChain(Run(s, steps).value, chain)
    decreases |steps|
  {
    if steps != [] {
      StepKeeps(s, steps[0]);
      StepStaysOnChain(s, steps[0], chain);
      RunStaysOnChain(Apply(s, steps[0]), steps[1..], chain);
    }
  }

  /**
   * Under every interleaving of requests on one chain, the cache and every answer
   * are a stretch of that chain, whatever tips were asked for.
   */
  lemma {:induction false} CacheIsAlwaysAStretch(steps: seq<Step>, chain: Chain)
    requires Run(Init(), steps).Some?
    requires forall i :: 0 <= i < |steps| ==> FetchesChain(steps[i], chain)
    ensures var s := Run(Init(), steps).value;
            && IsStretch(s.cache.blocks, chain)
            && forall r :: 0 <= r < |s.requests| && s.requests[r].Answered? ==> IsStretch(s.requests[r].answer, chain)
  {
    CacheIsAlwaysShort(steps);
    RunStaysOnChain(Init(), steps, chain);
    var s := Run(Init(), steps).value;
    ShortIsStretch(s.cache.blocks, chain);
    forall r | 0 <= r < |s.requests| && s.requests[r].Answered?
      ensures IsStretch(s.requests[r].answer, chain)
    {
      assert RequestFromChain(s.requests[r], chain);
      ShortIsStretch(s.requests[r].answer, chain);
    }
  }

  /** The blocks are at most six of the chain, read one after another. */
  ghost predicate IsStretch(blocks: seq<Block>, chain: Chain) {
    |blocks| <= LIMIT && exists lo: U64 :: lo + |blocks| <= U64_MAX + 1 && blocks == Read(chain, lo, |blocks|)
  }

  lemma ShortIsStretch(blocks: seq<Block>, chain: Chain)
    requires Short(blocks) && FromChain(blocks, chain)
    ensures IsStretch(blocks, chain)
  {
    var lo: U64 := if blocks == [] then 0 else blocks[0].height;
    if blocks != [] {
      assert blocks[|blocks| - 1].height == lo + |blocks| - 1;
    }
    ConsecutiveIsRead(blocks, chain, lo);
  }

  // ----- What a request finds between its load and its store -----

  /** The request has read the chain from `lo` up to where it is. */
  ghost predicate ReadsFrom(request: Request, chain: Chain, lo: U64, tip: U64) {
    match request
    case Filling(t, _, blocks, next) =>
      t == tip && lo + |blocks| <= tip + 1 && blocks == Read(chain, lo, |blocks|) && next == lo + |blocks|
    case Stopped(t, _, blocks) => t == tip && lo + |blocks| <= tip + 1 && blocks == Read(chain, lo, |blocks|)
    case _ => false
  }

  lemma LoadReads(s: State, r: nat, chain: Chain)
    requires IsChain(chain) && Inv(s) && StateFromChain(s, chain) && Enabled(s, Load(r))
    ensures var tip := s.requests[r].tip;
            && tip < U64_MAX && FirstHeight(tip) <= StartOf(s.cache.blocks, tip) <= tip
            && ReadsFrom(Apply(s, Load(r)).requests[r], chain, StartOf(s.cache.blocks, tip), tip)
  {
    assert RequestOk(s.requests[r]);
    TidyIsRead(s.cache.blocks, chain, s.requests[r].tip);
  }

  lemma ReadSnoc(chain: Chain, lo: U64, n: nat)
    requires lo + n <= U64_MAX
    ensures Read(chain, lo, n) + [chain(lo + n)] == Read(chain, lo, n + 1)
  {
  }

  lemma OtherStepLeaves(s: State, step: Step, r: nat)
    requires r < |s.requests| && Enabled(s, step) && (step.Arrive? || step.r != r)
    ensures r < |Apply(s, step).requests| && Apply(s, step).requests[r] == s.requests[r]
  {
  }

  lemma StepReads(s: State, step: Step, r: nat, chain: Chain, lo: U64, tip: U64)
    requires IsChain(chain) && tip < U64_MAX && FirstHeight(tip) <= lo
    requires r < |s.requests| && ReadsFrom(s.requests[r], chain, lo, tip)
    requires Enabled(s, step) && FetchesChain(step, chain) && step != Store(r)
    ensures r < |Apply(s, step).requests| && ReadsFrom(Apply(s, step).requests[r], chain, lo, tip)
  {
    if step.Arrive? || step.r != r {
      OtherStepLeaves(s, step, r);
    } else {
      var blocks := s.requests[r].blocks;
      ReadIsTidy(chain, lo, |blocks|, tip);
      if step.FetchNext? && step.result.Some? {
        ReadSnoc(chain, lo, |blocks|);
      }
    }
  }

  lemma {:induction false} RunReads(s: State, steps: seq<Step>, r: nat, chain: Chain, lo: U64, tip: U64)
    requires IsChain(chain) && tip < U64_MAX && FirstHeight(tip) <= lo
    requires r < |s.requests| && ReadsFrom(s.requests[r], chain, lo, tip) && Run(s, steps).Some?
    requires forall i :: 0 <= i < |steps| ==> FetchesChain(steps[i], chain) && steps[i] != Store(r)
    ensures r < |Run(s, steps).value.requests|
    ensures ReadsFrom(Run(s, steps).value.requests[r], chain, lo, tip)
    decreases |steps|
  {
    if steps != [] {
      StepReads(s, steps[0], r, chain, lo, tip);
      RunReads(Apply(s, steps[0]), steps[1..], r, chain, lo, tip);
    }
  }

  /**
   * However requests on one chain interleave: what a request records as complete
   * is the whole window if and only if the cache, when the request loaded it, had
   * the first block of that window or none of its blocks. `s` is the state in
   * which the request loads and `during` what happens until it stores.
   */
  lemma {:induction false} RecordedIsWindowIff(
      before: seq<Step>, s: State, during: seq<Step>, t: State, r: nat, chain: Chain)
    requires IsChain(chain) && Run(Init(), before) == Some(s) && Enabled(s, Load(r))
    requires Run(Apply(s, Load(r)), during) == Some(t) && Enabled(t, Store(r))
    requires forall i :: 0 <= i < |before| ==> FetchesChain(before[i], chain)
    requires forall i :: 0 <= i < |during| ==> FetchesChain(during[i], chain) && during[i] != Store(r)
    requires IsComplete(Some(s.requests[r].tip), t.requests[r].blocks)
    ensures var tip := s.requests[r].tip;
            && Apply(t, Store(r)).cache == Cache(Some(tip), t.requests[r].blocks)
            && Apply(t, Store(r)).requests[r] == Answered(t.requests[r].blocks)
            && (t.requests[r].blocks == Window(chain, tip) <==> FillsFromStart(s.cache.blocks, tip))
  {
    RunKeeps(Init(), before);
    RunStaysOnChain(Init(), before, chain);
    LoadReads(s, r, chain);
    var tip := s.requests[r].tip;
    var lo := StartOf(s.cache.blocks, tip);
    RunReads(Apply(s, Load(r)), during, r, chain, lo, tip);
    ReadReachesTip(chain, lo, |t.requests[r].blocks|, tip);
    StartsAtWindowIff(s.cache.blocks, tip);
    WindowLengths(chain, lo, tip);
  }

  lemma WindowLengths(chain: Chain, lo: U64, tip: U64)
    requires tip < U64_MAX && FirstHeight(tip) <= lo <= tip
    ensures Read(chain, lo, tip + 1 - lo) == Window(chain, tip) <==> lo == FirstHeight(tip)
  {
    assert |Read(chain, lo, tip + 1 - lo)| == tip + 1 - lo;
    assert |Window(chain, tip)| == tip + 1 - FirstHeight(tip);
  }

  // ----- What can happen next -----

  /** A request that has no answer yet can take its next step, and its fetch can bring a block or fail. */
  ghost predicate CanMove(s: State, r: nat)
    requires r < |s.requests|
  {
    match s.requests[r]
    case Arrived(_) => Enabled(s, Look(r))
    case Missed(_, _) => Enabled(s, Load(r))
    case Filling(tip, _, _, next) =>
      if next > tip then Enabled(s, Exhaust(r))
      else
        && Enabled(s, FetchNext(r, None))
        && forall b: Block :: b.height == next ==> Enabled(s, FetchNext(r, Some(b)))
    case Stopped(_, _, _) => Enabled(s, Store(r))
    case Answered(_) => true
  }

  /** No run excludes anything: requests for any tip or none may arrive, and each can go on. */
  lemma {:induction false} AnythingCanHappen(steps: seq<Step>)
    requires Run(Init(), steps).Some?
    ensures var s := Run(Init(), steps).value;
            && Enabled(s, Arrive(None)) && (forall tip: U64 :: tip < U64_MAX ==> Enabled(s, Arrive(Some(tip))))
            && forall r: nat :: r < |s.requests| ==> CanMove(s, r)
  {
  }

  // ----- A request whose fetch finds nothing -----

  /** What the request will fall back on. */
  function FallbackOf(request: Request): Option<seq<Block>> {
    match request
    case Missed(_, previous) => Some(previous)
    case Filling(_, previous, _, _) => Some(previous)
    case Stopped(_, previous, _) => Some(previous)
    case _ => None
  }

  lemma {:induction false} RunKeepsFallback(s: State, steps: seq<Step>, r: nat, previous: seq<Block>)
    requires r < |s.requests| && FallbackOf(s.requests[r]) == Some(previous) && Run(s, steps).Some?
    requires forall i :: 0 <= i < |steps| ==> steps[i] != Store(r)
    ensures r < |Run(s, steps).value.requests|
    ensures FallbackOf(Run(s, steps).value.requests[r]) == Some(previous)
    decreases |steps|
  {
    if steps != [] {
      StepKeepsFallback(s, steps[0], r, previous);
      RunKeepsFallback(Apply(s, steps[0]), steps[1..], r, previous);
    }
  }

  lemma StepKeepsFallback(s: State, step: Step, r: nat, previous: seq<Block>)
    requires r < |s.requests| && FallbackOf(s.requests[r]) == Some(previous)
    requires Enabled(s, step) && step != Store(r)
    ensures r < |Apply(s, step).requests| && FallbackOf(Apply(s, step).requests[r]) == Some(previous)
  {
  }

  /**
   * However requests interleave: one that misses and whose fetch finds no block
   * leaves the cache alone and is answered what the cache held when the request
   * first looked, whatever it holds by then.
   */
  lemma {:induction false} NothingFetchedAnswersOld(s: State, during: seq<Step>, t: State, r: nat)
    requires Enabled(s, Look(r)) && Apply(s, Look(r)).requests[r].Missed?
    requires Run(Apply(s, Look(r)), during) == Some(t) && Enabled(t, Store(r)) && t.requests[r].blocks == []
    requires forall i :: 0 <= i < |during| ==> during[i] != Store(r)
    ensures Apply(t, Store(r)).requests[r] == Answered(s.cache.blocks) && Apply(t, Store(r)).cache == t.cache
  {
    RunKeepsFallback(Apply(s, Look(r)), during, r, s.cache.blocks);
  }

  // ----- A request that runs alone -----

  /** The fetch steps of one request that meets the outcomes of `fetch`. */
  function FetchSteps(fetch: Fetch, r: nat, blocks: seq<Block>, next: U64, tip: U64): seq<Step>
    requires tip < U64_MAX
    decreases tip + 1 - next
  {
    if next > tip then [Exhaust(r)]
    else
      [FetchNext(r, fetch(next))]
      + if fetch(next).None? then []
        else FetchSteps(fetch, r, blocks + [fetch(next).value], SatAdd64(next, 1), tip)
  }

  lemma {:induction false} FetchStepsFill(fetch: Fetch, s: State, r: nat)
    requires Faithful(fetch)
    requires r < |s.requests| && s.requests[r].Filling? && s.requests[r].tip < U64_MAX
    ensures var Filling(tip, previous, blocks, next) := s.requests[r];
            Run(s, FetchSteps(fetch, r, blocks, next, tip))
            == Some(Set(s, r, Stopped(tip, previous, Tidy(Fill(fetch, blocks, next, tip), tip))))
    decreases s.requests[r].tip + 1 - s.requests[r].next
  {
    var Filling(tip, previous, blocks, next) := s.requests[r];
    var steps := FetchSteps(fetch, r, blocks, next, tip);
    assert Enabled(s, steps[0]);
    var t := Apply(s, steps[0]);
    if next <= tip && fetch(next).Some? {
      assert steps[1..] == FetchSteps(fetch, r, blocks + [fetch(next).value], SatAdd64(next, 1), tip);
      FetchStepsFill(fetch, t, r);
      assert t.requests[r := Stopped(tip, previous, Tidy(Fill(fetch, blocks, next, tip), tip))]
             == s.requests[r := Stopped(tip, previous, Tidy(Fill(fetch, blocks, next, tip), tip))];
    } else {
      assert steps[1..] == [];
    }
  }

  lemma {:induction false} RunConcat(s: State, xs: seq<Step>, ys: seq<Step>)
    requires Run(s, xs).Some?
    ensures Run(s, xs + ys) == Run(Run(s, xs).value, ys)
    decreases |xs|
  {
    if xs == [] {
      assert xs + ys == ys;
    } else {
      RunConcat(Apply(s, xs[0]), xs[1..], ys);
      assert (xs + ys)[1..] == xs[1..] + ys;
    }
  }

  /** The steps of a request that no other request interrupts. */
  function AloneSteps(fetch: Fetch, s: State, tip: Option<U64>): seq<Step>
    requires tip.Some? ==> tip.value < U64_MAX
  {
    var r := |s.requests|;
    if s.cache.chainHeight == tip || tip.None? then [Arrive(tip), Look(r)]
    else
      var start := Tidy(s.cache.blocks, tip.value);
      [Arrive(tip), Look(r), Load(r)]
      + FetchSteps(fetch, r, start, NextHeight(start, tip.value), tip.value)
      + [Store(r)]
  }

  lemma {:induction false} LookMisses(s: State, tip: U64)
    requires tip < U64_MAX && s.cache.chainHeight != Some(tip)
    ensures var r := |s.requests|;
            var start := Tidy(s.cache.blocks, tip);
            Run(s, [Arrive(Some(tip)), Look(r), Load(r)])
            == Some(s.(requests := s.requests + [Filling(tip, s.cache.blocks, start, NextHeight(start, tip))]))
  {
    var r := |s.requests|;
    var steps := [Arrive(Some(tip)), Look(r), Load(r)];
    var s1 := Apply(s, steps[0]);
    var s2 := Apply(s1, steps[1]);
    var s3 := Apply(s2, steps[2]);
    assert steps[1..] == [Look(r), Load(r)] && steps[1..][1..] == [Load(r)] && [Load(r)][1..] == [];
    assert Run(s2, [Load(r)]) == Some(s3);
    assert Run(s1, [Look(r), Load(r)]) == Some(s3);
    var start := Tidy(s.cache.blocks, tip);
    assert s3.requests == s.requests + [Filling(tip, s.cache.blocks, start, NextHeight(start, tip))];
  }

  /** A request that misses and runs alone leaves the cache and gets the answer of the sequential `Respond`. */
  lemma {:induction false} MissAlone(fetch: Fetch, s: State, tip: U64)
    requires Faithful(fetch) && tip < U64_MAX && s.cache.chainHeight != Some(tip)
    ensures var (cache, answer) := Respond(fetch, s.cache, Some(tip));
            Run(s, AloneSteps(fetch, s, Some(tip))) == Some(State(cache, s.requests + [Answered(answer)]))
  {
    var r := |s.requests|;
    var start := Tidy(s.cache.blocks, tip);
    var first := [Arrive(Some(tip)), Look(r), Load(r)];
    var fills := FetchSteps(fetch, r, start, NextHeight(start, tip), tip);
    LookMisses(s, tip);
    var t := Run(s, first).value;
    FetchStepsFill(fetch, t, r);
    RunConcat(s, first, fills);
    RunConcat(s, first + fills, [Store(r)]);
    var u := Run(t, fills).value;
    var v := Apply(u, Store(r));
    assert [Store(r)][1..] == [];
    assert Run(u, [Store(r)]) == Some(v);
    var (cache, answer) := Respond(fetch, s.cache, Some(tip));
    assert v.requests == s.requests + [Answered(answer)];
  }

  lemma {:induction false} HitAlone(s: State, tip: Option<U64>)
    requires (tip.Some? ==> tip.value < U64_MAX) && (s.cache.chainHeight == tip || tip.None?)
    ensures Run(s, [Arrive(tip), Look(|s.requests|)])
            == Some(s.(requests := s.requests + [Answered(s.cache.blocks)]))
  {
    var r := |s.requests|;
    var steps := [Arrive(tip), Look(r)];
    var s1 := Apply(s, steps[0]);
    var s2 := Apply(s1, Look(r));
    assert steps[1..] == [Look(r)] && [Look(r)][1..] == [];
    assert Run(s1, [Look(r)]) == Some(s2);
    assert s2.requests == s.requests + [Answered(s.cache.blocks)];
  }

  /** Every request that runs alone, with a tip or without, behaves as the sequential `Respond`. */
  lemma {:induction false} AloneIsSequential(fetch: Fetch, s: State, tip: Option<U64>)
    requires Faithful(fetch) && (tip.Some? ==> tip.value < U64_MAX)
    ensures var (cache, answer) := Respond(fetch, s.cache, tip);
            Run(s, AloneSteps(fetch, s, tip)) == Some(State(cache, s.requests + [Answered(answer)]))
  {
    if s.cache.chainHeight == tip || tip.None? {
      HitAlone(s, tip);
    } else {
      MissAlone(fetch, s, tip.value);
    }
  }
}
