/**
 * What the exact condition on the order of workers comes to: for texts that name
 * workers clearly, for texts that parse, and for miners known from the table.
 */
module WorkerOrder {
  import opened Words
  import opened Sums
  import opened Text
  import opened MinerIdentity
  import opened MinerHistory
  import opened HistoryInvariants
  import opened MinerWorkers
  import opened WorkerBuild
  import opened WorkerTotals
  import opened WorkerSessions
  import opened WorkerNames
  import opened WorkerForced

  // ----- The order of a list -----

  /** Two figures of age in order: smaller first, and none counts as the largest there is. */
  predicate NoOlder(a: Option<nat>, b: Option<nat>) {
    match (a, b)
    case (Some(x), Some(y)) => x <= y
    case (Some(x), None) => x <= U64_MAX
    case (None, Some(y)) => y >= U64_MAX
    case (None, None) => true
  }

  /**
   * Active workers come before inactive ones, among these connected ones first,
   * then those seen more recently, then by label and then by address.
   */
  lemma WorkersAreRanked(input: Input, order: seq<ChannelKey>, list: seq<Worker>, i: nat, j: nat)
    requires IsBuild(input, order, list) && i < j < |list|
    ensures var w, v := list[i], list[j];
            && (v.active ==> w.active)
            && (w.active == v.active && v.connected ==> w.connected)
            && (w.active == v.active && w.connected == v.connected ==>
                  && NoOlder(w.lastSeenSeconds, v.lastSeenSeconds)
                  && (NoOlder(v.lastSeenSeconds, w.lastSeenSeconds) ==>
                        && StringLeq(w.workerLabel, v.workerLabel)
                        && (w.workerLabel == v.workerLabel ==> StringLeq(w.payout, v.payout))))
  {
    assert WorkerLeq(list[i], list[j]);
    StringLeqIsTotal(list[i].workerLabel, list[i].workerLabel);
  }

  /** Within a worker, connected sessions come first, then they ascend by client and channel. */
  lemma SessionsAreRanked(input: Input, order: seq<ChannelKey>, list: seq<Worker>, n: nat, i: nat, j: nat)
    requires IsBuild(input, order, list) && n < |list| && i < j < |list[n].sessions|
    ensures var s, t := list[n].sessions[i], list[n].sessions[j];
            && (t.connected ==> s.connected)
            && (s.connected == t.connected ==>
                  s.client <= t.client && (s.client == t.client ==> s.channel <= t.channel))
  {
    FinalizedSummarises(list[n].id, Grouped(input.env, AllPushes(input, order))[list[n].id]);
    assert SessionLeq(list[n].sessions[i], list[n].sessions[j]);
  }

  // ----- Clear names -----

  lemma RowNameInPushes(input: Input, order: seq<ChannelKey>, id: string)
    requires IsVisit(input, order) && RowName(input, id).Some?
    ensures exists p :: && p in AllPushes(input, order) && WorkerId(input.env, p.userIdentity) == id
                        && LabelAndPayout(input.env, p.userIdentity) == RowName(input, id).value
  {
    var p := NamingPush(input.env, RowPushes(input.rows, ByChannel(input.stats), input.now), id);
    assert p in LivePushes(input, order) && p in AllPushes(input, order);
  }

  lemma StatNameInPushes(input: Input, order: seq<ChannelKey>, key: ChannelKey)
    requires IsVisit(input, order) && key in Leftover(input.rows, ByChannel(input.stats))
    ensures StatPush(Leftover(input.rows, ByChannel(input.stats))[key], input.now) in AllPushes(input, order)
  {
    var rest := Leftover(input.rows, ByChannel(input.stats));
    var pushes := StatPushes(order, rest, input.now);
    assert key in Elements(order);
    var i :| 0 <= i < |order| && order[i] == key;
    assert pushes[i] in pushes;
    assert pushes[i] in LivePushes(input, order) && pushes[i] in AllPushes(input, order);
  }

  lemma KnownNameInPushes(input: Input, order: seq<ChannelKey>, id: string)
    requires IsVisit(input, order) && KnownName(input, order, id).Some?
    ensures exists p :: && p in AllPushes(input, order) && WorkerId(input.env, p.userIdentity) == id
                        && LabelAndPayout(input.env, p.userIdentity) == KnownName(input, order, id).value
  {
    var p := NamingPush(input.env, KnownPushes(AdmittedIn(input, order), input.now), id);
    assert p in AllPushes(input, order);
  }

  /** Every name a worker can get is that of some text pushed to it. */
  lemma NameInPushes(input: Input, order: seq<ChannelKey>, id: string, name: Name)
    requires IsVisit(input, order) && name in NamesOf(input, order, id)
    ensures exists p :: && p in AllPushes(input, order) && WorkerId(input.env, p.userIdentity) == id
                        && LabelAndPayout(input.env, p.userIdentity) == name
  {
    var rest := Leftover(input.rows, ByChannel(input.stats));
    if RowName(input, id).Some? {
      RowNameInPushes(input, order, id);
    } else if StatNames(input.env, rest, id) != {} {
      var key :| && key in rest && WorkerId(input.env, rest[key].userIdentity) == id
                 && LabelAndPayout(input.env, rest[key].userIdentity) == name;
      StatNameInPushes(input, order, key);
      assert StatPush(rest[key], input.now).userIdentity == rest[key].userIdentity;
    } else {
      KnownNameInPushes(input, order, id);
    }
  }

  /** With clear names a worker can get only one. */
  lemma OneNameOnly(input: Input, order: seq<ChannelKey>, id: string, x: Name, y: Name)
    requires IsVisit(input, order) && NamesClear(input.env, AllPushes(input, order))
    requires x in NamesOf(input, order, id) && y in NamesOf(input, order, id)
    ensures x == y
  {
    NameInPushes(input, order, id, x);
    NameInPushes(input, order, id, y);
  }

  /** With clear names, one worker stands below another exactly when its rank is smaller. */
  lemma BelowIff(input: Input, order: seq<ChannelKey>, a: string, x: Name, b: string, y: Name)
    requires IsVisit(input, order) && NamesClear(input.env, AllPushes(input, order))
    requires x in NamesOf(input, order, a) && y in NamesOf(input, order, b)
    ensures Below(input, order, a, b)
            <==> RankLess(RankWith(StandingIn(input, order, a), x), RankWith(StandingIn(input, order, b), y))
  {
    forall x', y' | x' in NamesOf(input, order, a) && y' in NamesOf(input, order, b)
      ensures x' == x && y' == y
    {
      OneNameOnly(input, order, a, x, x');
      OneNameOnly(input, order, b, y, y');
    }
  }

  /** With clear names, one of two workers stands below the other exactly when their ranks differ. */
  lemma ApartIff(input: Input, order: seq<ChannelKey>, a: string, x: Name, b: string, y: Name)
    requires IsVisit(input, order) && NamesClear(input.env, AllPushes(input, order))
    requires x in NamesOf(input, order, a) && y in NamesOf(input, order, b)
    ensures Below(input, order, a, b) || Below(input, order, b, a)
            <==> RankWith(StandingIn(input, order, a), x) != RankWith(StandingIn(input, order, b), y)
  {
    BelowIff(input, order, a, x, b, y);
    BelowIff(input, order, b, y, a, x);
    RankLeqIsTotal(RankWith(StandingIn(input, order, a), x), RankWith(StandingIn(input, order, b), y));
  }

  /** No two workers have the same rank. */
  ghost predicate NoTies(list: seq<Worker>) {
    forall i, j :: 0 <= i < j < |list| ==> RankOf(list[i]) != RankOf(list[j])
  }

  lemma PairApart(input: Input, order: seq<ChannelKey>, list: seq<Worker>, i: nat, j: nat)
    requires IsVisit(input, order) && NamesClear(input.env, AllPushes(input, order))
    requires IsBuild(input, order, list) && i < |list| && j < |list|
    ensures list[i].id in WorkerIds(input, order) && list[j].id in WorkerIds(input, order)
    ensures Below(input, order, list[i].id, list[j].id) || Below(input, order, list[j].id, list[i].id)
            <==> RankOf(list[i]) != RankOf(list[j])
  {
    var x := RankInOther(input, order, order, list, i);
    var y := RankInOther(input, order, order, list, j);
    ApartIff(input, order, list[i].id, x, list[j].id, y);
  }

  lemma ForcedIffNoTies(input: Input, order: seq<ChannelKey>, list: seq<Worker>)
    requires IsVisit(input, order) && NamesClear(input.env, AllPushes(input, order)) && IsBuild(input, order, list)
    ensures Forced(input, order) <==> NoTies(list)
  {
    if Forced(input, order) {
      forall i, j | 0 <= i < j < |list|
        ensures RankOf(list[i]) != RankOf(list[j])
      {
        PairApart(input, order, list, i, j);
        assert list[i].id != list[j].id;
      }
    }
    if NoTies(list) {
      forall a, b | a in WorkerIds(input, order) && b in WorkerIds(input, order) && a != b
        ensures Below(input, order, a, b) || Below(input, order, b, a)
      {
        var i :| 0 <= i < |list| && list[i].id == a;
        var j :| 0 <= j < |list| && list[j].id == b;
        PairApart(input, order, list, i, j);
        assert RankOf(list[i]) != RankOf(list[j]);
      }
    }
  }

  /**
   * When texts that share a worker name it alike, every build lists the ids in the
   * same order if and only if no two workers of one build tie.
   */
  lemma OrderIsForcedIffNoTies(input: Input, order: seq<ChannelKey>, list: seq<Worker>)
    requires IsBuild(input, order, list)
    requires IsVisit(input, order) && NamesClear(input.env, AllPushes(input, order))
    ensures OneOrder(input) <==> NoTies(list)
  {
    OrderIsForcedIff(input, order);
    ForcedIffNoTies(input, order, list);
  }

  // ----- Conditions on the texts -----

  /** Two texts that do not parse, of different workers with equal activity, connection and age. */
  ghost predicate AreTwins(input: Input, order: seq<ChannelKey>, text: string, text': string)
    requires IsVisit(input, order)
  {
    && !IsParsed(input.env, text) && !IsParsed(input.env, text') && UnparsedId(text) != UnparsedId(text')
    && StandingIn(input, order, UnparsedId(text)) == StandingIn(input, order, UnparsedId(text'))
  }

  ghost predicate HasTwins(input: Input, order: seq<ChannelKey>)
    requires IsVisit(input, order)
  {
    exists p, q :: p in AllPushes(input, order) && q in AllPushes(input, order)
                   && AreTwins(input, order, p.userIdentity, q.userIdentity)
  }

  /** Texts of different workers name them alike only if neither parses. */
  lemma NamedAlikeIff(env: Env, text: string, text': string)
    requires Canonical(env.decode) && WorkerId(env, text) != WorkerId(env, text')
    ensures LabelAndPayout(env, text) == LabelAndPayout(env, text') <==> !IsParsed(env, text) && !IsParsed(env, text')
  {
    if IsParsed(env, text) && IsParsed(env, text') {
      ParsedShareIff(env, text, text');
    } else if IsParsed(env, text) {
      ParsedNameIsNotInvalid(env, text);
      UnparsedWorkerId(env, text');
    } else if IsParsed(env, text') {
      ParsedNameIsNotInvalid(env, text');
      UnparsedWorkerId(env, text);
    } else {
      UnparsedWorkerId(env, text);
      UnparsedWorkerId(env, text');
    }
  }

  lemma PushedIsWorker(input: Input, order: seq<ChannelKey>, p: Push)
    requires IsVisit(input, order) && p in AllPushes(input, order)
    ensures WorkerId(input.env, p.userIdentity) in WorkerIds(input, order)
  {
    GroupedKeys(input.env, AllPushes(input, order));
  }

  lemma NameOfPush(input: Input, order: seq<ChannelKey>, p: Push)
    requires IsVisit(input, order) && NamesClear(input.env, AllPushes(input, order)) && p in AllPushes(input, order)
    ensures LabelAndPayout(input.env, p.userIdentity) in NamesOf(input, order, WorkerId(input.env, p.userIdentity))
  {
    var id := WorkerId(input.env, p.userIdentity);
    PushNames(input.env, AllPushes(input, order), p);
    NameIsPossible(input, order, id);
    NameInPushes(input, order, id, NameOf(input.env, AllPushes(input, order), id).value);
  }

  lemma PushesApart(input: Input, order: seq<ChannelKey>, p: Push, q: Push)
    requires Canonical(input.env.decode) && IsVisit(input, order) && NamesClear(input.env, AllPushes(input, order))
    requires p in AllPushes(input, order) && q in AllPushes(input, order)
    requires WorkerId(input.env, p.userIdentity) != WorkerId(input.env, q.userIdentity)
    ensures var a, b := WorkerId(input.env, p.userIdentity), WorkerId(input.env, q.userIdentity);
            Below(input, order, a, b) || Below(input, order, b, a)
            <==> !AreTwins(input, order, p.userIdentity, q.userIdentity)
  {
    var env, a, b := input.env, WorkerId(input.env, p.userIdentity), WorkerId(input.env, q.userIdentity);
    NameOfPush(input, order, p);
    NameOfPush(input, order, q);
    ApartIff(input, order, a, LabelAndPayout(env, p.userIdentity), b, LabelAndPayout(env, q.userIdentity));
    NamedAlikeIff(env, p.userIdentity, q.userIdentity);
    if !IsParsed(env, p.userIdentity) && !IsParsed(env, q.userIdentity) {
      UnparsedWorkerId(env, p.userIdentity);
      UnparsedWorkerId(env, q.userIdentity);
    }
  }

  lemma ForcedIffNoTwins(input: Input, order: seq<ChannelKey>)
    requires Canonical(input.env.decode) && IsVisit(input, order) && NamesClear(input.env, AllPushes(input, order))
    ensures Forced(input, order) <==> !HasTwins(input, order)
  {
    if Forced(input, order) {
      forall p, q | p in AllPushes(input, order) && q in AllPushes(input, order)
        ensures !AreTwins(input, order, p.userIdentity, q.userIdentity)
      {
        PushedIsWorker(input, order, p);
        PushedIsWorker(input, order, q);
        TwinsAreApart(input, order, p, q);
      }
    }
    if !HasTwins(input, order) {
      forall a, b | a in WorkerIds(input, order) && b in WorkerIds(input, order) && a != b
        ensures Below(input, order, a, b) || Below(input, order, b, a)
      {
        var p := PushOf(input, order, a);
        var q := PushOf(input, order, b);
        PushesApart(input, order, p, q);
      }
    }
  }

  lemma TwinsAreApart(input: Input, order: seq<ChannelKey>, p: Push, q: Push)
    requires Canonical(input.env.decode) && IsVisit(input, order) && NamesClear(input.env, AllPushes(input, order))
    requires Forced(input, order) && p in AllPushes(input, order) && q in AllPushes(input, order)
    requires WorkerId(input.env, p.userIdentity) in WorkerIds(input, order)
    requires WorkerId(input.env, q.userIdentity) in WorkerIds(input, order)
    ensures !AreTwins(input, order, p.userIdentity, q.userIdentity)
  {
    if WorkerId(input.env, p.userIdentity) != WorkerId(input.env, q.userIdentity) {
      PushesApart(input, order, p, q);
    } else if !IsParsed(input.env, p.userIdentity) && !IsParsed(input.env, q.userIdentity) {
      UnparsedWorkerId(input.env, p.userIdentity);
      UnparsedWorkerId(input.env, q.userIdentity);
    }
  }

  lemma PushOf(input: Input, order: seq<ChannelKey>, id: string) returns (p: Push)
    requires IsVisit(input, order) && id in WorkerIds(input, order)
    ensures p in AllPushes(input, order) && WorkerId(input.env, p.userIdentity) == id
  {
    GroupedKeys(input.env, AllPushes(input, order));
    p :| p in AllPushes(input, order) && WorkerId(input.env, p.userIdentity) == id;
  }

  /**
   * The condition on the texts of the input. When no text that does not parse is
   * the miner id of one that does, every build lists the ids in the same order if
   * and only if no two different texts that do not parse have workers of equal
   * activity, connection and age.
   */
  lemma OrderIsForcedIffNoTwins(input: Input, order: seq<ChannelKey>)
    requires Canonical(input.env.decode) && IsVisit(input, order) && !Collide(input.env, AllPushes(input, order))
    ensures OneOrder(input) <==> !HasTwins(input, order)
  {
    NamesClearIff(input.env, AllPushes(input, order));
    OrderIsForcedIff(input, order);
    ForcedIffNoTwins(input, order);
  }

  // ----- Identities that all parse -----

  ghost predicate AllParse(env: Env, pushes: seq<Push>) {
    forall p :: p in pushes ==> IsParsed(env, p.userIdentity)
  }

  /** The two lists show the same, worker by worker. */
  ghost predicate SameLists(list: seq<Worker>, other: seq<Worker>) {
    && |list| == |other|
    && forall i :: 0 <= i < |list| ==> && list[i].id == other[i].id && SameFigures(list[i], other[i])
                                       && list[i].workerLabel == other[i].workerLabel
                                       && list[i].payout == other[i].payout
  }

  lemma NamesInLists(
      input: Input, order: seq<ChannelKey>, list: seq<Worker>, other: seq<ChannelKey>, list': seq<Worker>,
      i: nat, j: nat)
    requires IsVisit(input, order) && NamesClear(input.env, AllPushes(input, order))
    requires IsBuild(input, order, list) && IsBuild(input, other, list')
    requires i < |list| && j < |list'| && list[i].id == list'[j].id
    ensures list[i].workerLabel == list'[j].workerLabel && list[i].payout == list'[j].payout
  {
    var x := RankInOther(input, order, order, list, i);
    var y := RankInOther(input, order, other, list', j);
    OneNameOnly(input, order, list[i].id, x, y);
  }

  /** One order of ids and clear names make two builds show the same. */
  lemma OneOrderSameLists(
      input: Input, order: seq<ChannelKey>, list: seq<Worker>, other: seq<ChannelKey>, list': seq<Worker>)
    requires IsVisit(input, order) && NamesClear(input.env, AllPushes(input, order))
    requires IsBuild(input, order, list) && IsBuild(input, other, list') && OneOrder(input)
    ensures Ids(list) == Ids(list') && SameLists(list, list')
  {
    WorkersAgree(input, order, list, other, list');
    assert |list| == |Ids(list)| == |list'|;
    forall i | 0 <= i < |list|
      ensures list[i].id == list'[i].id && SameFigures(list[i], list'[i])
      ensures list[i].workerLabel == list'[i].workerLabel && list[i].payout == list'[i].payout
    {
      assert Ids(list)[i] == list[i].id && Ids(list')[i] == list'[i].id;
      NamesInLists(input, order, list, other, list', i, i);
    }
  }

  /**
   * When every identity parses, the same workers come out in the same order, with
   * the same names, sessions and figures, for every order in which the hash maps
   * are visited.
   */
  lemma OrderIsDeterministic(
      input: Input, order: seq<ChannelKey>, list: seq<Worker>, other: seq<ChannelKey>, list': seq<Worker>)
    requires Canonical(input.env.decode) && InputParses(input)
    requires IsBuild(input, order, list) && IsBuild(input, other, list')
    ensures Ids(list) == Ids(list') && SameLists(list, list')
  {
    OrderIsLeftover(input, order);
    ParsedPushes(input, order);
    NamesClearIff(input.env, AllPushes(input, order));
    OrderIsForcedIffNoTwins(input, order);
    OneOrderSameLists(input, order, list, other, list');
  }

  ghost predicate InputParses(input: Input) {
    && (forall r :: r in input.rows ==> Parse(input.env.decode, r.userIdentity, input.env.network).Accepted?)
    && (forall s :: s in input.stats ==> Parse(input.env.decode, s.userIdentity, input.env.network).Accepted?)
    && (forall k :: k in input.known ==> Parse(input.env.decode, k.row.userIdentity, input.env.network).Accepted?)
  }

  lemma {:induction false} RowPushesParse(env: Env, rows: seq<MinerRow>, stats: StatMap, now: U64)
    requires forall r :: r in rows ==> Parse(env.decode, r.userIdentity, env.network).Accepted?
    ensures AllParse(env, RowPushes(rows, stats, now))
  {
    if rows != [] {
      assert rows == rows[..|rows| - 1] + [rows[|rows| - 1]];
      RowPushesParse(env, rows[..|rows| - 1], stats, now);
    }
  }

  lemma {:induction false} ByChannelValues(stats: seq<Stat>, key: ChannelKey)
    requires key in ByChannel(stats)
    ensures ByChannel(stats)[key] in stats && ByChannel(stats)[key].key == key
  {
    var before, last := stats[..|stats| - 1], stats[|stats| - 1];
    assert stats == before + [last];
    if key != last.key {
      ByChannelValues(before, key);
    }
  }

  lemma {:induction false} AdmittedAreKnown(env: Env, ids: set<string>, known: seq<Known>)
    ensures forall k :: k in Admitted(env, ids, known) ==> k in known
  {
    if known != [] {
      AdmittedAreKnown(env, ids, known[..|known| - 1]);
      assert known == known[..|known| - 1] + [known[|known| - 1]];
    }
  }

  lemma AllParseConcat(env: Env, pushes: seq<Push>, more: seq<Push>)
    requires AllParse(env, pushes) && AllParse(env, more)
    ensures AllParse(env, pushes + more)
  {
  }

  lemma StatPushesParse(env: Env, order: seq<ChannelKey>, stats: StatMap, now: U64)
    requires forall key :: key in order ==> key in stats
    requires forall key :: key in order ==> Parse(env.decode, stats[key].userIdentity, env.network).Accepted?
    ensures AllParse(env, StatPushes(order, stats, now))
  {
  }

  lemma KnownPushesParse(env: Env, known: seq<Known>, now: U64)
    requires forall k :: k in known ==> Parse(env.decode, k.row.userIdentity, env.network).Accepted?
    ensures AllParse(env, KnownPushes(known, now))
  {
  }

  lemma LeftoverParse(env: Env, input: Input, key: ChannelKey)
    requires env == input.env && InputParses(input) && key in Leftover(input.rows, ByChannel(input.stats))
    ensures Parse(env.decode, Leftover(input.rows, ByChannel(input.stats))[key].userIdentity, env.network).Accepted?
  {
    LeftoverKeys(input.rows, ByChannel(input.stats));
    ByChannelValues(input.stats, key);
  }

  lemma ParsedPushes(input: Input, order: seq<ChannelKey>)
    requires InputParses(input)
    requires forall key :: key in order ==> key in Leftover(input.rows, ByChannel(input.stats))
    ensures AllParse(input.env, AllPushes(input, order))
  {
    var env := input.env;
    var stats := ByChannel(input.stats);
    var rest := Leftover(input.rows, stats);
    RowPushesParse(env, input.rows, stats, input.now);
    forall key | key in order
      ensures Parse(env.decode, rest[key].userIdentity, env.network).Accepted?
    {
      LeftoverParse(env, input, key);
    }
    StatPushesParse(env, order, rest, input.now);
    AllParseConcat(env, RowPushes(input.rows, stats, input.now), StatPushes(order, rest, input.now));
    AdmittedAreKnown(env, Grouped(env, LivePushes(input, order)).Keys, input.known);
    KnownPushesParse(env, AdmittedIn(input, order), input.now);
    AllParseConcat(env, LivePushes(input, order), KnownPushes(AdmittedIn(input, order), input.now));
  }

  // ----- Known miners -----

  /** Every row of a reachable miner table names its own worker. */
  lemma {:induction false} ReachableKnownAreCanonical(env: Env, ops: seq<Op>, id: string)
    requires Canonical(env.decode) && id in Run(env, ops).table
    ensures WorkerId(env, Run(env, ops).table[id].userIdentity) == id
  {
    ReachableRowsOk(env, ops);
    var row := Run(env, ops).table[id];
    assert RowOk(env, id, row);
    ParsedWorkerId(env, row.userIdentity);
  }

  /** With canonical and distinct ids, a known miner is admitted exactly when it has no worker yet. */
  lemma {:induction false} AdmittedIff(env: Env, ids: set<string>, known: seq<Known>)
    requires forall k :: k in known ==> WorkerId(env, k.row.userIdentity) == k.minerId
    requires forall i, j :: 0 <= i < j < |known| ==> known[i].minerId != known[j].minerId
    ensures forall k :: k in Admitted(env, ids, known) <==> k in known && k.minerId !in ids
  {
    if known != [] {
      var before, last := known[..|known| - 1], known[|known| - 1];
      assert known == before + [last];
      AdmittedIff(env, ids, before);
      assert forall k :: k in before ==> k.minerId != last.minerId;
      assert last.minerId !in KnownIds(env, Admitted(env, ids, before));
    }
  }
}
