/** Inputs for which the order in which hash maps are visited shows in the workers returned. */
module WorkerTies {
  import opened Words
  import opened Sums
  import opened Collecting
  import opened Sorting
  import opened Text
  import opened MinerIdentity
  import opened MinerHistory
  import opened MinerWorkers
  import opened WorkerBuild
  import opened WorkerTotals
  import opened WorkerSessions
  import opened WorkerNames
  import opened WorkerForced
  import opened WorkerOrder

  // ----- Identities that do not parse -----

  function UnparsedRow(text: string, channel: U32): MinerRow {
    MinerRow(text, ChannelKey(1, channel, "standard"), true, INVALID_LABEL, NO_ADDRESS, text, 0.0, 0, 0.0, 0, None)
  }

  /** Two connected channels whose identities are the given texts. */
  function TwoChannels(env: Env, text: string, text': string, now: U64): Input {
    Input(env, [UnparsedRow(text, 1), UnparsedRow(text', 2)], [], [], now)
  }

  function UnparsedEntry(text: string, channel: U32, now: U64): Entry {
    Entry(INVALID_LABEL, NO_ADDRESS, text, [SessionFromRow(UnparsedRow(text, channel), None, now)])
  }

  ghost predicate IsUnparsed(env: Env, text: string) {
    !IsParsed(env, text) && Trim(text) != []
  }

  lemma UnparsedRank(text: string, channel: U32, now: U64)
    ensures RankOf(Finalized(text, UnparsedEntry(text, channel, now)))
            == Rank(true, true, U64_MAX, INVALID_LABEL, NO_ADDRESS)
    ensures Finalized(text, UnparsedEntry(text, channel, now)).id == text
  {
    var entry := UnparsedEntry(text, channel, now);
    var s := entry.sessions[0];
    assert s in entry.sessions && s.connected && s.lastSeenSeconds == None;
    FinalizedSummarises(text, entry);
    FinalizedNames(text, entry);
    FinalizedPercent(text, entry);
  }

  lemma TwoChannelPushes(env: Env, text: string, text': string, now: U64)
    ensures var input := TwoChannels(env, text, text', now);
            && Leftover(input.rows, ByChannel(input.stats)) == map[]
            && AllPushes(input, [])
               == [Push(text, SessionFromRow(UnparsedRow(text, 1), None, now))]
                  + [Push(text', SessionFromRow(UnparsedRow(text', 2), None, now))]
  {
    var input := TwoChannels(env, text, text', now);
    var r, r' := UnparsedRow(text, 1), UnparsedRow(text', 2);
    assert input.rows == [] + [r] + [r'];
    assert ByChannel(input.stats) == map[];
    RowPushesExtend([], r, map[], now);
    RowPushesExtend([] + [r], r', map[], now);
    assert RowPushes([], map[], now) == [] && Leftover([], map[]) == map[];
    assert AdmittedIn(input, []) == [];
  }

  lemma {:induction false} TwoChannelWorkers(env: Env, text: string, text': string, now: U64)
    requires IsUnparsed(env, text) && IsUnparsed(env, text') && text != text'
    ensures Leftover(TwoChannels(env, text, text', now).rows, ByChannel([])) == map[]
    ensures Grouped(env, AllPushes(TwoChannels(env, text, text', now), []))
            == map[text := UnparsedEntry(text, 1, now), text' := UnparsedEntry(text', 2, now)]
  {
    TwoChannelPushes(env, text, text', now);
    var p := Push(text, SessionFromRow(UnparsedRow(text, 1), None, now));
    var q := Push(text', SessionFromRow(UnparsedRow(text', 2), None, now));
    GroupedExtends(env, [], p);
    GroupedExtends(env, [p], q);
    assert [] + [p] == [p];
    UnparsedIsPushed(env, map[], text, p.session);
    UnparsedIsPushed(env, map[text := UnparsedEntry(text, 1, now)], text', q.session);
  }

  lemma UnparsedIsPushed(env: Env, workers: Workers, text: string, session: Session)
    requires IsUnparsed(env, text) && text !in workers
    ensures Pushed(env, workers, Push(text, session))
            == workers[text := Entry(INVALID_LABEL, NO_ADDRESS, text, [session])]
  {
    UnparsedWorkerId(env, text);
    assert [] + [session] == [session];
  }

  lemma PairIsArrangement(w: Worker, v: Worker, workers: Workers)
    requires workers.Keys == {w.id, v.id} && w.id != v.id && RankOf(w) == RankOf(v)
    requires w == Finalized(w.id, workers[w.id]) && v == Finalized(v.id, workers[v.id])
    ensures IsArrangement([w, v], workers)
  {
    var list := [w, v];
    assert WorkerLeq(w, v) by {
      RankLeqIsTotal(RankOf(w), RankOf(v));
    }
    assert list[0] == w && list[1] == v && |list| == 2;
    forall i, j | 0 <= i < j < |list|
      ensures WorkerLeq(list[i], list[j]) && list[i].id != list[j].id
    {
      assert i == 0 && j == 1;
    }
    forall i | 0 <= i < |list|
      ensures list[i].id in workers && list[i] == Finalized(list[i].id, workers[list[i].id])
    {
      assert i == 0 || i == 1;
    }
  }

  lemma NothingLeftOver(input: Input, list: seq<Worker>)
    requires Leftover(input.rows, ByChannel(input.stats)) == map[]
    requires IsArrangement(list, Grouped(input.env, AllPushes(input, [])))
    ensures IsBuild(input, [], list)
  {
  }

  lemma PairIds(w: Worker, v: Worker)
    ensures Ids([w, v]) == [w.id, v.id]
  {
  }

  lemma PairIsBuild(input: Input, w: Worker, v: Worker, workers: Workers)
    requires Leftover(input.rows, ByChannel(input.stats)) == map[]
    requires Grouped(input.env, AllPushes(input, [])) == workers
    requires workers.Keys == {w.id, v.id} && w.id != v.id && RankOf(w) == RankOf(v)
    requires w == Finalized(w.id, workers[w.id]) && v == Finalized(v.id, workers[v.id])
    ensures IsBuild(input, [], [w, v]) && Ids([w, v]) == [w.id, v.id]
  {
    PairIsArrangement(w, v, workers);
    NothingLeftOver(input, [w, v]);
    PairIds(w, v);
  }

  lemma PairBothWays(input: Input, w: Worker, v: Worker, workers: Workers)
    requires Leftover(input.rows, ByChannel(input.stats)) == map[]
    requires Grouped(input.env, AllPushes(input, [])) == workers
    requires workers.Keys == {w.id, v.id} && w.id != v.id && RankOf(w) == RankOf(v)
    requires w == Finalized(w.id, workers[w.id]) && v == Finalized(v.id, workers[v.id])
    ensures IsBuild(input, [], [w, v]) && IsBuild(input, [], [v, w])
    ensures Ids([w, v]) == [w.id, v.id] && Ids([v, w]) == [v.id, w.id]
  {
    PairIsBuild(input, w, v, workers);
    PairIsBuild(input, v, w, workers);
  }

  /** The finalized workers of the two channels. */
  lemma TwoFinalized(input: Input, text: string, text': string)
    returns (w: Worker, v: Worker, workers: Workers)
    requires IsUnparsed(input.env, text) && IsUnparsed(input.env, text') && text != text'
    requires input == TwoChannels(input.env, text, text', input.now)
    ensures Leftover(input.rows, ByChannel(input.stats)) == map[]
    ensures Grouped(input.env, AllPushes(input, [])) == workers
    ensures workers.Keys == {text, text'} && w.id == text && v.id == text' && RankOf(w) == RankOf(v)
    ensures w == Finalized(text, workers[text]) && v == Finalized(text', workers[text'])
  {
    TwoChannelWorkers(input.env, text, text', input.now);
    UnparsedRank(text, 1, input.now);
    UnparsedRank(text', 2, input.now);
    workers := map[text := UnparsedEntry(text, 1, input.now), text' := UnparsedEntry(text', 2, input.now)];
    w, v := Finalized(text, UnparsedEntry(text, 1, input.now)), Finalized(text', UnparsedEntry(text', 2, input.now));
  }

  /**
   * Identities that do not parse share label and address. Two channels with
   * different ones give two workers that tie, and a build may return them in
   * either order.
   */
  lemma UnparsedOrderIsNotForced(input: Input, text: string, text': string)
    returns (list: seq<Worker>, list': seq<Worker>)
    requires IsUnparsed(input.env, text) && IsUnparsed(input.env, text') && text != text'
    requires input == TwoChannels(input.env, text, text', input.now)
    ensures IsBuild(input, [], list) && IsBuild(input, [], list')
    ensures Ids(list) == [text, text'] && Ids(list') == [text', text]
  {
    var w, v, workers := TwoFinalized(input, text, text');
    PairBothWays(input, w, v, workers);
    list, list' := [w, v], [v, w];
  }

  // ----- Statistics without rows or known miners -----

  function KeyOf(channel: U32, kind: string): ChannelKey {
    ChannelKey(1, channel, kind)
  }

  ghost predicate OnlyStats(input: Input) {
    input.rows == [] && input.known == [] && forall i, j :: 0 <= i < j < |input.stats| ==>
                                                              input.stats[i].key != input.stats[j].key
  }

  lemma {:induction false} ByChannelAt(stats: seq<Stat>, i: nat)
    requires i < |stats| && forall i, j :: 0 <= i < j < |stats| ==> stats[i].key != stats[j].key
    ensures stats[i].key in ByChannel(stats) && ByChannel(stats)[stats[i].key] == stats[i]
  {
    if i < |stats| - 1 {
      ByChannelAt(stats[..|stats| - 1], i);
    }
  }

  /** With statistics alone, all of them are left over and pushed in the order of the visit. */
  lemma OnlyStatsPushed(input: Input, order: seq<ChannelKey>)
    requires OnlyStats(input) && Distinct(order) && Elements(order) == (set s | s in input.stats :: s.key)
    ensures Leftover(input.rows, ByChannel(input.stats)) == ByChannel(input.stats)
    ensures IsVisit(input, order)
    ensures AllPushes(input, order) == StatPushes(order, ByChannel(input.stats), input.now)
  {
    ByChannelKeys(input.stats);
    OrderIsLeftover(input, order);
    assert AdmittedIn(input, order) == [];
  }

  // ----- A text that is the miner id of another -----

  const STANDARD: string := "standard"

  /** An open channel that the pool's statistics alone report. */
  function OpenStat(text: string, channel: U32): Stat {
    Stat(KeyOf(channel, STANDARD), text, 0, None, 0, 0.0, 0, 0.0, 0)
  }

  function ThreeStats(env: Env, text: string, text': string, text'': string, now: U64): Input {
    Input(env, [], [OpenStat(text, 1), OpenStat(text', 2), OpenStat(text'', 3)], [], now)
  }

  /** The visit of the three channels that starts with the given two. */
  function VisitOf(first: U32, second: U32): seq<ChannelKey> {
    [KeyOf(first, STANDARD), KeyOf(second, STANDARD), KeyOf(3, STANDARD)]
  }

  function OpenPush(text: string, channel: U32, now: U64): Push {
    StatPush(OpenStat(text, channel), now)
  }

  lemma ThreeKeys(input: Input, text: string, text': string, text'': string)
    requires input == ThreeStats(input.env, text, text', text'', input.now)
    ensures OnlyStats(input)
    ensures (set s | s in input.stats :: s.key) == {KeyOf(1, STANDARD), KeyOf(2, STANDARD), KeyOf(3, STANDARD)}
  {
    var stats := input.stats;
    assert stats[0] in stats && stats[1] in stats && stats[2] in stats;
  }

  lemma StatsOfThree(input: Input, text: string, text': string, text'': string)
    requires input == ThreeStats(input.env, text, text', text'', input.now)
    ensures var stats := ByChannel(input.stats);
            && KeyOf(1, STANDARD) in stats && stats[KeyOf(1, STANDARD)] == OpenStat(text, 1)
            && KeyOf(2, STANDARD) in stats && stats[KeyOf(2, STANDARD)] == OpenStat(text', 2)
            && KeyOf(3, STANDARD) in stats && stats[KeyOf(3, STANDARD)] == OpenStat(text'', 3)
  {
    ThreeKeys(input, text, text', text'');
    assert input.stats[0] == OpenStat(text, 1);
    ByChannelAt(input.stats, 0);
    ByChannelAt(input.stats, 1);
    ByChannelAt(input.stats, 2);
  }

  lemma ThreeStatsPushed(input: Input, text: string, text': string, text'': string)
    requires input == ThreeStats(input.env, text, text', text'', input.now)
    ensures IsVisit(input, VisitOf(1, 2)) && IsVisit(input, VisitOf(2, 1))
    ensures AllPushes(input, VisitOf(1, 2))
            == [OpenPush(text, 1, input.now), OpenPush(text', 2, input.now), OpenPush(text'', 3, input.now)]
    ensures AllPushes(input, VisitOf(2, 1))
            == [OpenPush(text', 2, input.now), OpenPush(text, 1, input.now), OpenPush(text'', 3, input.now)]
  {
    ThreeKeys(input, text, text', text'');
    StatsOfThree(input, text, text', text'');
    OnlyStatsPushed(input, VisitOf(1, 2));
    OnlyStatsPushed(input, VisitOf(2, 1));
  }

  /** Every push is of an open channel seen at time zero. */
  ghost predicate AllOpen(pushes: seq<Push>, now: U64) {
    forall p :: p in pushes ==> p.session.connected && p.session.lastSeenSeconds == Some(now)
  }

  lemma OpenStanding(id: string, entry: Entry, now: U64)
    requires entry.sessions != []
    requires forall s :: s in entry.sessions ==> s.connected && s.lastSeenSeconds == Some(now)
    ensures StandingOf(Finalized(id, entry)) == Standing(true, true, now)
  {
    assert entry.sessions[0] in entry.sessions;
    FinalizedSummarises(id, entry);
    assert IsDisplayed(entry.sessions[0], entry.sessions);
  }

  lemma AllOpenStanding(input: Input, order: seq<ChannelKey>, p: Push)
    requires IsVisit(input, order) && AllOpen(AllPushes(input, order), input.now) && p in AllPushes(input, order)
    ensures StandingIn(input, order, WorkerId(input.env, p.userIdentity)) == Standing(true, true, input.now)
  {
    var id := WorkerId(input.env, p.userIdentity);
    var sessions := SessionsOf(input.env, AllPushes(input, order), id);
    CollectedFrom(AllPushes(input, order), SessionFor(input.env, id), p.session);
    assert p.session in sessions;
    forall s | s in sessions
      ensures s.connected && s.lastSeenSeconds == Some(input.now)
    {
      CollectedFrom(AllPushes(input, order), SessionFor(input.env, id), s);
    }
    OpenStanding(id, Entry("", "", "", sessions), input.now);
  }

  /** Three texts: the second belongs to the worker of the first and names it differently, the third has its own. */
  ghost predicate Colliding(env: Env, text: string, text': string, text'': string) {
    && WorkerId(env, text) == WorkerId(env, text') != WorkerId(env, text'')
    && LabelAndPayout(env, text').0 == INVALID_LABEL
    && LabelAndPayout(env, text'').0 == "j" && LabelAndPayout(env, text).0 == "m"
  }

  lemma LabelsInOrder()
    ensures StringLeq("j", "m") && StringLeq(INVALID_LABEL, "j")
  {
    assert INVALID_LABEL[0] == 'i';
  }

  lemma FirstName(env: Env, p: Push, q: Push, r: Push, id: string)
    ensures NameOf(env, [p, q, r], id)
            == NextOf(NextOf(NameFor(env, id)(p), NameFor(env, id)(q)), NameFor(env, id)(r))
  {
    var f := NameFor(env, id);
    assert [p, q, r] == [] + [p] + [q] + [r];
    FirstOfSnoc([], p, f);
    FirstOfSnoc([] + [p], q, f);
    FirstOfSnoc([] + [p] + [q], r, f);
  }

  /** Of two equal standings the one with the smaller label comes first. */
  lemma NamesDecide(s: Standing, x: Name, y: Name)
    requires x.0 != y.0 && StringLeq(x.0, y.0)
    ensures RankLeq(RankWith(s, x), RankWith(s, y)) && RankWith(s, x) != RankWith(s, y)
  {
  }

  lemma BuildOfTwo(input: Input, order: seq<ChannelKey>, a: string, x: Name, b: string, y: Name)
    returns (list: seq<Worker>)
    requires IsVisit(input, order) && a != b && WorkerIds(input, order) == {a, b}
    requires StandingIn(input, order, a) == StandingIn(input, order, b)
    requires NameOf(input.env, AllPushes(input, order), a) == Some(x)
    requires NameOf(input.env, AllPushes(input, order), b) == Some(y)
    requires x.0 != y.0 && StringLeq(x.0, y.0)
    ensures IsBuild(input, order, list) && NoTies(list) && Ids(list) == [a, b]
  {
    var workers := Grouped(input.env, AllPushes(input, order));
    RankInBuild(input, order, a);
    RankInBuild(input, order, b);
    NamesDecide(StandingIn(input, order, a), x, y);
    list := ArrangementPutting(workers, a, b);
    TwoRanks(list, workers, a, b);
  }

  lemma TwoRanks(list: seq<Worker>, workers: Workers, a: string, b: string)
    requires IsArrangement(list, workers) && workers.Keys == {a, b} && a != b && OrderedIn(Ids(list), a, b)
    requires RankOf(Finalized(a, workers[a])) != RankOf(Finalized(b, workers[b]))
    ensures NoTies(list) && Ids(list) == [a, b]
  {
    IdsAreDistinct(list, workers);
    TwoInOrder(Ids(list), a, b);
    assert Ids(list)[0] == list[0].id && Ids(list)[1] == list[1].id;
  }

  lemma {:induction false} IdsOfThree(env: Env, p: Push, q: Push, r: Push)
    requires WorkerId(env, p.userIdentity) == WorkerId(env, q.userIdentity)
    ensures Grouped(env, [p, q, r]).Keys == {WorkerId(env, p.userIdentity), WorkerId(env, r.userIdentity)}
  {
    var pushes := [p, q, r];
    GroupedKeys(env, pushes);
    assert p == pushes[0] && r == pushes[2];
  }

  /** Two workers in the order that their names demand. */
  lemma BuildOfThree(
      input: Input, order: seq<ChannelKey>, p: Push, q: Push, r: Push, a: string, x: Name, b: string, y: Name)
    returns (list: seq<Worker>)
    requires IsVisit(input, order) && AllPushes(input, order) == [p, q, r] && AllOpen([p, q, r], input.now)
    requires WorkerId(input.env, p.userIdentity) == WorkerId(input.env, q.userIdentity)
    requires a != b && {WorkerId(input.env, p.userIdentity), WorkerId(input.env, r.userIdentity)} == {a, b}
    requires NameOf(input.env, [p, q, r], a) == Some(x) && NameOf(input.env, [p, q, r], b) == Some(y)
    requires x.0 != y.0 && StringLeq(x.0, y.0)
    ensures IsBuild(input, order, list) && NoTies(list) && Ids(list) == [a, b]
  {
    IdsOfThree(input.env, p, q, r);
    StandingsOfThree(input, order, p, q, r, a, b);
    list := BuildOfTwo(input, order, a, x, b, y);
  }

  lemma StandingsOfThree(
      input: Input, order: seq<ChannelKey>, p: Push, q: Push, r: Push, a: string, b: string)
    requires IsVisit(input, order) && AllPushes(input, order) == [p, q, r] && AllOpen([p, q, r], input.now)
    requires {WorkerId(input.env, p.userIdentity), WorkerId(input.env, r.userIdentity)} == {a, b}
    ensures StandingIn(input, order, a) == StandingIn(input, order, b)
  {
    assert p in [p, q, r] && r in [p, q, r];
    AllOpenStanding(input, order, p);
    AllOpenStanding(input, order, r);
    assert a in {WorkerId(input.env, p.userIdentity), WorkerId(input.env, r.userIdentity)};
    assert b in {WorkerId(input.env, p.userIdentity), WorkerId(input.env, r.userIdentity)};
  }

  lemma TwoInOrder(ids: seq<string>, a: string, b: string)
    requires Distinct(ids) && Elements(ids) == {a, b} && a != b && OrderedIn(ids, a, b)
    ensures ids == [a, b]
  {
    DistinctIsSet(ids);
    assert |ids| == |multiset(ids)| == |multiset({a, b})| == 2;
  }

  /**
   * Why clear names are needed. Three open channels are seen at the same time. The
   * text of the second does not parse and is the miner id of the first; whichever
   * is visited first names their worker. No build has ties, yet two builds list
   * the ids in opposite order.
   */
  lemma CollidingNamesChangeOrder(input: Input, text: string, text': string, text'': string)
    returns (list: seq<Worker>, list': seq<Worker>)
    requires input == ThreeStats(input.env, text, text', text'', input.now)
    requires Colliding(input.env, text, text', text'')
    ensures IsBuild(input, VisitOf(1, 2), list) && NoTies(list)
    ensures IsBuild(input, VisitOf(2, 1), list') && NoTies(list')
    ensures Ids(list) == [WorkerId(input.env, text''), WorkerId(input.env, text)]
    ensures Ids(list') == [WorkerId(input.env, text), WorkerId(input.env, text'')]
  {
    ThreeStatsPushed(input, text, text', text'');
    var p, q, r := OpenPush(text, 1, input.now), OpenPush(text', 2, input.now), OpenPush(text'', 3, input.now);
    var a, b := WorkerId(input.env, text), WorkerId(input.env, text'');
    FirstName(input.env, p, q, r, a);
    FirstName(input.env, p, q, r, b);
    FirstName(input.env, q, p, r, a);
    FirstName(input.env, q, p, r, b);
    LabelsInOrder();
    list := BuildOfThree(input, VisitOf(1, 2), p, q, r,
                         b, LabelAndPayout(input.env, text''), a, LabelAndPayout(input.env, text));
    list' := BuildOfThree(input, VisitOf(2, 1), q, p, r,
                          a, LabelAndPayout(input.env, text'), b, LabelAndPayout(input.env, text''));
  }

  lemma ShortLabels()
    ensures LabelOf("m") == "m" && LabelOf("j") == "j"
  {
    TrimmedStays("m");
    TrimmedStays("j");
  }

  /** Such texts exist for every address, as long as the miner id built from it is not itself an address. */
  lemma CollidingTexts(env: Env, address: string)
    requires Canonical(env.decode) && CanonicalAddress(env.decode, env.network, address)
    requires !IsParsed(env, MinerId(env.network, address, "m"))
    ensures Colliding(env, Dotted(address, "m"), MinerId(env.network, address, "m"), Dotted(address, "j"))
  {
    var text, text', text'' := Dotted(address, "m"), MinerId(env.network, address, "m"), Dotted(address, "j");
    FormsAgree(env.decode, env.network, address, "m");
    FormsAgree(env.decode, env.network, address, "j");
    ShortLabels();
    ParsedWorkerId(env, text);
    ParsedWorkerId(env, text'');
    ParsedShareIff(env, text, text'');
    UnparsedWorkerId(env, text');
    MinerIdIsTrimmed(env.network, address, "m");
  }

  lemma MinerIdIsTrimmed(n: Network, payout: string, workerLabel: string)
    requires workerLabel != [] && Trimmed(workerLabel)
    ensures Trim(MinerId(n, payout, workerLabel)) != []
  {
    var id := MinerId(n, payout, workerLabel);
    TrimmedStays(workerLabel);
    assert id[0] == NetworkName(n)[0];
    assert id[|id| - 1] == workerLabel[|workerLabel| - 1];
    TrimmedStays(id);
  }

  // ----- Sessions that tie -----

  const EXTENDED: string := "extended"

  /** A channel that was open for five seconds. */
  function ClosedStat(text: string, kind: string, openedAt: U32): Stat {
    Stat(KeyOf(1, kind), text, openedAt, Some(openedAt + 5), 0, 0.0, 0, 0.0, 0)
  }

  /** Channels of the two kinds with one client and one channel id, opened one second apart. */
  function ClosedStats(env: Env, text: string, now: U64): Input {
    Input(env, [], [ClosedStat(text, STANDARD, 0), ClosedStat(text, EXTENDED, 1)], [], now)
  }

  function ClosedPush(text: string, kind: string, openedAt: U32, now: U64): Push {
    StatPush(ClosedStat(text, kind, openedAt), now)
  }

  lemma KindsDiffer()
    ensures STANDARD != EXTENDED
  {
    assert STANDARD[0] != EXTENDED[0];
  }

  lemma TwoStats(input: Input, text: string)
    requires input == ClosedStats(input.env, text, input.now)
    ensures OnlyStats(input)
    ensures (set s | s in input.stats :: s.key) == {KeyOf(1, STANDARD), KeyOf(1, EXTENDED)}
    ensures var stats := ByChannel(input.stats);
            && KeyOf(1, STANDARD) in stats && stats[KeyOf(1, STANDARD)] == ClosedStat(text, STANDARD, 0)
            && KeyOf(1, EXTENDED) in stats && stats[KeyOf(1, EXTENDED)] == ClosedStat(text, EXTENDED, 1)
  {
    KindsDiffer();
    assert input.stats[0] in input.stats && input.stats[1] in input.stats;
    ByChannelAt(input.stats, 0);
    ByChannelAt(input.stats, 1);
  }

  lemma TwoStatsPushed(input: Input, text: string)
    requires input == ClosedStats(input.env, text, input.now)
    ensures var k, k' := KeyOf(1, STANDARD), KeyOf(1, EXTENDED);
            var p, p' := ClosedPush(text, STANDARD, 0, input.now), ClosedPush(text, EXTENDED, 1, input.now);
            && IsVisit(input, [k, k']) && AllPushes(input, [k, k']) == [p, p']
            && IsVisit(input, [k', k]) && AllPushes(input, [k', k]) == [p', p]
  {
    KindsDiffer();
    TwoStats(input, text);
    OnlyStatsPushed(input, [KeyOf(1, STANDARD), KeyOf(1, EXTENDED)]);
    OnlyStatsPushed(input, [KeyOf(1, EXTENDED), KeyOf(1, STANDARD)]);
  }

  /** Neither session is shown before the other. */
  ghost predicate Tie(s: Session, t: Session) {
    SessionLeq(s, t) && SessionLeq(t, s) && !s.connected && !t.connected && s.uptime == t.uptime && s.uptime.Some?
  }

  lemma {:induction false} TiedDisplayed(sessions: seq<Session>)
    requires |sessions| == 2 && Tie(sessions[0], sessions[1])
    ensures Displayed(sessions) == sessions && LongestUp(sessions) == Some(sessions[1])
  {
    var tail := sessions[1..];
    assert tail[0] == sessions[1] && tail[1..] == [];
    assert Connected(tail[1..]) == [] && LongestUp(tail[1..]) == None;
    assert Connected(tail) == [] && LongestUp(tail) == Some(tail[0]);
  }

  /** Of two sessions that tie, the opening time is that of the one pushed last. */
  lemma TiedQuote(id: string, entry: Entry, s: Session, t: Session)
    requires entry.sessions == [s, t] && Tie(s, t)
    ensures Finalized(id, entry).openedAt == t.openedAt && Finalized(id, entry).closedAt == t.closedAt
  {
    SortedStays(SessionLeq, entry.sessions);
    TiedDisplayed(entry.sessions);
  }

  lemma SessionsOfTwo(env: Env, p: Push, q: Push)
    requires WorkerId(env, p.userIdentity) == WorkerId(env, q.userIdentity)
    ensures SessionsOf(env, [p, q], WorkerId(env, p.userIdentity)) == [p.session, q.session]
  {
    var f := SessionFor(env, WorkerId(env, p.userIdentity));
    assert [p, q] == [] + [p] + [q];
    CollectSnoc([], p, f);
    CollectSnoc([] + [p], q, f);
  }

  lemma {:induction false} IdsOfTwo(env: Env, p: Push, q: Push)
    requires WorkerId(env, p.userIdentity) == WorkerId(env, q.userIdentity)
    ensures Grouped(env, [p, q]).Keys == {WorkerId(env, p.userIdentity)}
  {
    GroupedKeys(env, [p, q]);
    assert p == [p, q][0];
  }

  lemma OneIsArrangement(workers: Workers, id: string)
    requires workers.Keys == {id}
    ensures IsArrangement([Finalized(id, workers[id])], workers)
  {
    FinalizedNames(id, workers[id]);
    var list := [Finalized(id, workers[id])];
    assert list[0].id == id;
  }

  /** A build of two sessions of one worker. */
  lemma BuildOfTied(input: Input, order: seq<ChannelKey>, p: Push, q: Push) returns (w: Worker)
    requires IsVisit(input, order) && AllPushes(input, order) == [p, q]
    requires p.userIdentity == q.userIdentity && Tie(p.session, q.session)
    ensures IsBuild(input, order, [w]) && w.id == WorkerId(input.env, p.userIdentity)
    ensures w.openedAt == q.session.openedAt && w.closedAt == q.session.closedAt
  {
    var id, workers := WorkerId(input.env, p.userIdentity), Grouped(input.env, AllPushes(input, order));
    IdsOfTwo(input.env, p, q);
    GroupedSessions(input.env, [p, q], id);
    SessionsOfTwo(input.env, p, q);
    OneIsArrangement(workers, id);
    FinalizedNames(id, workers[id]);
    TiedQuote(id, workers[id], p.session, q.session);
    w := Finalized(id, workers[id]);
  }

  /**
   * Why sessions that tie are excepted. One identity has two closed channels with
   * the same client and channel id, of different kinds and up equally long. The
   * worker shows the opening and closing times of whichever is visited last.
   */
  lemma TiedSessionsQuoteEither(input: Input, text: string)
    returns (w: Worker, v: Worker)
    requires input == ClosedStats(input.env, text, input.now)
    ensures IsBuild(input, [KeyOf(1, STANDARD), KeyOf(1, EXTENDED)], [w])
    ensures IsBuild(input, [KeyOf(1, EXTENDED), KeyOf(1, STANDARD)], [v])
    ensures w.id == v.id && w.openedAt == Some(1) && w.closedAt == Some(6)
    ensures v.openedAt == Some(0) && v.closedAt == Some(5)
  {
    TwoStatsPushed(input, text);
    var p, q := ClosedPush(text, STANDARD, 0, input.now), ClosedPush(text, EXTENDED, 1, input.now);
    w := BuildOfTied(input, [KeyOf(1, STANDARD), KeyOf(1, EXTENDED)], p, q);
    v := BuildOfTied(input, [KeyOf(1, EXTENDED), KeyOf(1, STANDARD)], q, p);
  }
}
