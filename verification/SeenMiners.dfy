/**
 * The miners the dashboard has seen: a map that each monitoring sample is merged
 * into and that never forgets a miner.
 */
module SeenMiners {
  import opened Words
  import opened Sums
  import opened Sorting
  import opened Text
  import opened MinerIdentity
  import opened MinerHistory
  import opened MinerWorkers
  import opened WorkerBuild
  import opened WorkerTotals
  import opened WorkerNames
  import opened WorkerOrder

  /** A channel in an answer of the monitoring interface. */
  datatype Report = Report(
    key: ChannelKey,
    userIdentity: string,
    hashrate: real,
    accepted: nat,
    bestDiff: real,
    blocks: nat)

  function ReportedRow(env: Env, r: Report): MinerRow {
    var (workerLabel, payout) := LabelAndPayout(env, r.userIdentity);
    MinerRow(WorkerId(env, r.userIdentity), r.key, true, workerLabel, payout, r.userIdentity,
             r.hashrate, r.accepted, r.bestDiff, r.blocks, None)
  }

  type Seen = map<string, MinerRow>

  /** An attempt to read all channels, with nothing if the interface was unavailable. */
  datatype Sample = Sample(rows: Option<seq<MinerRow>>, now: U64)

  // ----- Merging as a function -----

  function Dimmed(row: MinerRow): MinerRow {
    row.(connected := false, hashrate := 0.0)
  }

  function AllDimmed(seen: Seen): Seen {
    map id | id in seen :: Dimmed(seen[id])
  }

  function SeenAt(row: MinerRow, now: U64): MinerRow {
    row.(lastSeen := Some(now))
  }

  function Inserted(seen: Seen, rows: seq<MinerRow>, now: U64): Seen {
    if rows == [] then seen
    else
      var last := rows[|rows| - 1];
      Inserted(seen, rows[..|rows| - 1], now)[last.id := SeenAt(last, now)]
  }

  function Merged(seen: Seen, sample: Sample): Seen {
    if sample.rows.None? then seen else Inserted(AllDimmed(seen), sample.rows.value, sample.now)
  }

  function RunSamples(samples: seq<Sample>): Seen {
    if samples == [] then map[]
    else Merged(RunSamples(samples[..|samples| - 1]), samples[|samples| - 1])
  }

  /** Every row stands under its own id. */
  ghost predicate Keyed(seen: Seen) {
    forall id :: id in seen ==> seen[id].id == id
  }

  // ----- The order in which seen miners are listed -----

  /** Connected miners first, then by label and address. */
  predicate RowLeq(a: MinerRow, b: MinerRow) {
    if a.connected != b.connected then a.connected
    else if a.workerLabel != b.workerLabel then StringLeq(a.workerLabel, b.workerLabel)
    else StringLeq(a.payout, b.payout)
  }

  /** All seen miners, each once, in some sorted order. */
  ghost predicate IsListing(list: seq<MinerRow>, seen: Seen) {
    SortedBy(RowLeq, list) && multiset(list) == multiset(seen.Values)
  }

  lemma RowLeqIsTotalPreorder()
    ensures TotalPreorder(RowLeq)
  {
    forall x: MinerRow, y: MinerRow
      ensures RowLeq(x, y) || RowLeq(y, x)
    {
      RowLeqTies(x, y);
    }
    forall x: MinerRow, y: MinerRow, z: MinerRow | RowLeq(x, y) && RowLeq(y, z)
      ensures RowLeq(x, z)
    {
      RowLeqIsTransitive(x, y, z);
    }
  }

  lemma RowLeqTies(x: MinerRow, y: MinerRow)
    ensures RowLeq(x, y) || RowLeq(y, x)
    ensures RowLeq(x, y) && RowLeq(y, x) ==> x.workerLabel == y.workerLabel && x.payout == y.payout
  {
    StringLeqIsTotal(x.workerLabel, y.workerLabel);
    StringLeqIsTotal(x.payout, y.payout);
  }

  /** The ranks of workers order rows too, with the fields that rows lack held constant. */
  lemma RowLeqIsTransitive(x: MinerRow, y: MinerRow, z: MinerRow)
    requires RowLeq(x, y) && RowLeq(y, z)
    ensures RowLeq(x, z)
  {
    var a := Rank(true, x.connected, 0, x.workerLabel, x.payout);
    var b := Rank(true, y.connected, 0, y.workerLabel, y.payout);
    var c := Rank(true, z.connected, 0, z.workerLabel, z.payout);
    RankLeqIsTransitive(a, b, c);
  }

  // ----- The dashboard -----

  class Dashboard {
    var seenMiners: Seen

    ghost predicate Valid()
      reads this
    {
      Keyed(seenMiners)
    }

    constructor ()
      ensures Valid() && seenMiners == RunSamples([])
    {
      seenMiners := map[];
    }

    method Merge(sample: Sample)
      requires Valid()
      modifies this
      ensures Valid() && seenMiners == Merged(old(seenMiners), sample)
    {
      ghost var before := seenMiners;
      if sample.rows.Some? {
        var rows := sample.rows.value;
        DimAll();
        for i := 0 to |rows|
          invariant Keyed(seenMiners)
          invariant seenMiners == Inserted(AllDimmed(before), rows[..i], sample.now)
        {
          assert rows[..i + 1][..i] == rows[..i];
          seenMiners := seenMiners[rows[i].id := SeenAt(rows[i], sample.now)];
        }
        assert rows[..|rows|] == rows;
      }
    }

    method DimAll()
      requires Valid()
      modifies this
      ensures Valid() && seenMiners == AllDimmed(old(seenMiners))
    {
      ghost var before := seenMiners;
      var todo := seenMiners.Keys;
      while todo != {}
        invariant seenMiners.Keys == before.Keys && todo <= before.Keys
        invariant forall id :: id in before ==> seenMiners[id] == if id in todo then before[id] else Dimmed(before[id])
        decreases todo
      {
        var id :| id in todo;
        seenMiners := seenMiners[id := Dimmed(seenMiners[id])];
        todo := todo - {id};
      }
      assert seenMiners == AllDimmed(before);
    }

    /** Merges a sample and lists what has been seen so far. */
    method FetchConnected(sample: Sample) returns (list: seq<MinerRow>)
      requires Valid()
      modifies this
      ensures Valid() && seenMiners == Merged(old(seenMiners), sample)
      ensures IsListing(list, seenMiners)
    {
      Merge(sample);
      list := [];
      var todo := seenMiners.Keys;
      while todo != {}
        invariant Valid() && seenMiners == Merged(old(seenMiners), sample)
        invariant todo <= seenMiners.Keys
        invariant Distinct(list) && Elements(list) == set id | id in seenMiners.Keys - todo :: seenMiners[id]
        decreases todo
      {
        var id :| id in todo;
        ValuesExtend(seenMiners, todo, id, list);
        list := list + [seenMiners[id]];
        todo := todo - {id};
      }
      assert Elements(list) == seenMiners.Values;
      DistinctIsSet(list);
      SortPermutes(RowLeq, list);
      RowLeqIsTotalPreorder();
      SortIsSorted(RowLeq, list);
      list := StableSort(RowLeq, list);
    }
  }

  lemma ValuesExtend(seen: Seen, todo: set<string>, id: string, list: seq<MinerRow>)
    requires Keyed(seen) && todo <= seen.Keys && id in todo && Distinct(list)
    requires Elements(list) == set other | other in seen.Keys - todo :: seen[other]
    ensures Distinct(list + [seen[id]])
    ensures Elements(list + [seen[id]]) == set other | other in seen.Keys - (todo - {id}) :: seen[other]
  {
    assert forall row :: row in list ==> row in Elements(list);
    assert seen[id] !in list;
    ElementsOfSnoc(list, seen[id]);
    assert seen.Keys - (todo - {id}) == seen.Keys - todo + {id};
  }

  // ----- What a run remembers -----

  ghost predicate Mentions(rows: seq<MinerRow>, id: string) {
    exists k :: 0 <= k < |rows| && rows[k].id == id
  }

  /** The row of a sample that is kept for an id: the last of its channels. */
  ghost predicate LastRow(rows: seq<MinerRow>, k: int, id: string) {
    0 <= k < |rows| && rows[k].id == id && forall l :: k < l < |rows| ==> rows[l].id != id
  }

  lemma LastRowExists(rows: seq<MinerRow>, id: string) returns (k: int)
    requires Mentions(rows, id)
    ensures LastRow(rows, k, id)
  {
    if rows[|rows| - 1].id == id {
      k := |rows| - 1;
    } else {
      var m :| 0 <= m < |rows| && rows[m].id == id;
      assert rows[..|rows| - 1][m].id == id;
      k := LastRowExists(rows[..|rows| - 1], id);
    }
  }

  lemma {:induction false} InsertedAt(seen: Seen, rows: seq<MinerRow>, now: U64, id: string)
    ensures !Mentions(rows, id) ==> (id in Inserted(seen, rows, now) <==> id in seen)
    ensures !Mentions(rows, id) && id in seen ==> Inserted(seen, rows, now)[id] == seen[id]
    ensures Mentions(rows, id) ==> id in Inserted(seen, rows, now)
    ensures forall k :: LastRow(rows, k, id) ==>
                          Mentions(rows, id) && Inserted(seen, rows, now)[id] == SeenAt(rows[k], now)
  {
    if rows != [] {
      var before, last := rows[..|rows| - 1], rows[|rows| - 1];
      InsertedAt(seen, before, now, id);
      assert rows == before + [last];
      if last.id != id {
        assert Mentions(rows, id) <==> Mentions(before, id);
        assert forall k :: LastRow(rows, k, id) ==> LastRow(before, k, id);
      }
    }
  }

  ghost predicate MentionedIn(sample: Sample, id: string) {
    sample.rows.Some? && Mentions(sample.rows.value, id)
  }

  /** The last sample that has the id. */
  ghost predicate LastMention(samples: seq<Sample>, i: int, id: string) {
    0 <= i < |samples| && MentionedIn(samples[i], id) && forall j :: i < j < |samples| ==> !MentionedIn(samples[j], id)
  }

  /** Whether an available sample came after the given one. */
  ghost predicate Superseded(samples: seq<Sample>, i: int) {
    exists j :: 0 <= i < j < |samples| && samples[j].rows.Some?
  }

  /** What the map holds for an id whose last mention is the given one. */
  ghost predicate RemembersRow(samples: seq<Sample>, i: int, id: string, row: MinerRow)
    requires LastMention(samples, i, id)
  {
    forall k :: LastRow(samples[i].rows.value, k, id) ==>
                  var last := SeenAt(samples[i].rows.value[k], samples[i].now);
                  row == if Superseded(samples, i) then Dimmed(last) else last
  }

  lemma MergedAt(seen: Seen, sample: Sample, id: string)
    ensures id in Merged(seen, sample) <==> id in seen || MentionedIn(sample, id)
    ensures id in seen && !MentionedIn(sample, id) ==>
              Merged(seen, sample)[id] == if sample.rows.Some? then Dimmed(seen[id]) else seen[id]
    ensures MentionedIn(sample, id) ==>
              forall k :: LastRow(sample.rows.value, k, id) ==>
                            Merged(seen, sample)[id] == SeenAt(sample.rows.value[k], sample.now)
  {
    if sample.rows.Some? {
      InsertedAt(AllDimmed(seen), sample.rows.value, sample.now, id);
    }
  }

  lemma SupersededExtends(samples: seq<Sample>, last: Sample, i: int)
    requires 0 <= i < |samples|
    ensures Superseded(samples + [last], i) <==> Superseded(samples, i) || last.rows.Some?
  {
    var all := samples + [last];
    assert all[|samples|] == last;
    assert forall j :: i < j < |samples| ==> all[j] == samples[j];
  }

  lemma {:induction false} RememberedStep(samples: seq<Sample>, last: Sample, i: int, id: string)
    requires LastMention(samples + [last], i, id)
    requires i < |samples| ==> LastMention(samples, i, id)
                               && id in RunSamples(samples) && RemembersRow(samples, i, id, RunSamples(samples)[id])
    ensures id in Merged(RunSamples(samples), last)
    ensures RemembersRow(samples + [last], i, id, Merged(RunSamples(samples), last)[id])
  {
    MergedAt(RunSamples(samples), last, id);
    if i < |samples| {
      assert (samples + [last])[|samples|] == last;
      SupersededExtends(samples, last, i);
    }
  }

  lemma MentionExtends(samples: seq<Sample>, last: Sample, id: string)
    ensures (exists i :: 0 <= i < |samples + [last]| && MentionedIn((samples + [last])[i], id))
            <==> (exists i :: 0 <= i < |samples| && MentionedIn(samples[i], id)) || MentionedIn(last, id)
  {
    var all := samples + [last];
    assert all[|samples|] == last;
    assert forall i :: 0 <= i < |samples| ==> all[i] == samples[i];
  }

  /**
   * Exactly the ids of some sample are remembered, and for each the row of its
   * last sample, disconnected once a later sample was available.
   */
  lemma {:induction false} RunRemembers(samples: seq<Sample>, id: string)
    ensures id in RunSamples(samples) <==> exists i :: 0 <= i < |samples| && MentionedIn(samples[i], id)
    ensures forall i :: LastMention(samples, i, id) ==>
                          id in RunSamples(samples) && RemembersRow(samples, i, id, RunSamples(samples)[id])
  {
    if samples != [] {
      var before, last := samples[..|samples| - 1], samples[|samples| - 1];
      assert samples == before + [last];
      RunRemembers(before, id);
      MergedAt(RunSamples(before), last, id);
      MentionExtends(before, last, id);
      forall i | LastMention(samples, i, id)
        ensures id in RunSamples(samples) && RemembersRow(samples, i, id, RunSamples(samples)[id])
      {
        assert forall j :: 0 <= j < |before| ==> samples[j] == before[j];
        RememberedStep(before, last, i, id);
      }
    }
  }

  lemma LastMentionExists(samples: seq<Sample>, id: string) returns (i: int)
    requires exists j :: 0 <= j < |samples| && MentionedIn(samples[j], id)
    ensures LastMention(samples, i, id)
  {
    var before, last := samples[..|samples| - 1], samples[|samples| - 1];
    assert samples == before + [last];
    MentionExtends(before, last, id);
    if MentionedIn(last, id) {
      i := |samples| - 1;
    } else {
      i := LastMentionExists(before, id);
    }
  }

  // ----- Rows of the monitoring interface -----

  /** Every row of every sample was built from a report. */
  ghost predicate AllReported(env: Env, samples: seq<Sample>) {
    forall i, k :: 0 <= i < |samples| && samples[i].rows.Some? && 0 <= k < |samples[i].rows.value| ==>
                     IsReported(env, samples[i].rows.value[k])
  }

  ghost predicate IsReported(env: Env, row: MinerRow) {
    exists r :: row == ReportedRow(env, r)
  }

  lemma ReportedIsConnected(env: Env, row: MinerRow)
    requires IsReported(env, row)
    ensures row.connected && row.id == WorkerId(env, row.userIdentity)
    ensures (row.workerLabel, row.payout) == LabelAndPayout(env, row.userIdentity)
  {
  }

  /** The latest sample that was available. */
  ghost predicate LatestAvailable(samples: seq<Sample>, i: int) {
    0 <= i < |samples| && samples[i].rows.Some? && !Superseded(samples, i)
  }

  /** A remembered miner is connected exactly when the latest available sample has it. */
  lemma {:induction false} ConnectedIffInLatestSample(env: Env, samples: seq<Sample>, id: string)
    requires AllReported(env, samples) && id in RunSamples(samples)
    ensures RunSamples(samples)[id].connected
            <==> exists i :: LatestAvailable(samples, i) && MentionedIn(samples[i], id)
  {
    RunRemembers(samples, id);
    var i := LastMentionExists(samples, id);
    var k := LastRowExists(samples[i].rows.value, id);
    ReportedIsConnected(env, samples[i].rows.value[k]);
    assert RunSamples(samples)[id].connected <==> !Superseded(samples, i);
    if j :| LatestAvailable(samples, j) && MentionedIn(samples[j], id) {
      assert i == j;
    }
  }

  /**
   * The last-seen time of a miner is that of the last sample that has it, with the
   * measures of its last channel there.
   */
  lemma {:induction false} LastSeenIsLastMention(samples: seq<Sample>, i: int, k: int, id: string)
    requires LastMention(samples, i, id) && LastRow(samples[i].rows.value, k, id)
    ensures id in RunSamples(samples)
    ensures var row, reported := RunSamples(samples)[id], samples[i].rows.value[k];
            && row.lastSeen == Some(samples[i].now)
            && row == reported.(lastSeen := row.lastSeen, connected := row.connected, hashrate := row.hashrate)
            && row.hashrate == (if Superseded(samples, i) then 0.0 else reported.hashrate)
  {
    RunRemembers(samples, id);
  }

  /** Everything the listing shows of a miner, in terms of the report that its last row was built from. */
  lemma {:induction false} SeenShowsReport(env: Env, samples: seq<Sample>, i: int, k: int, id: string, r: Report)
    requires LastMention(samples, i, id) && LastRow(samples[i].rows.value, k, id)
    requires samples[i].rows.value[k] == ReportedRow(env, r)
    ensures id in RunSamples(samples) && id == WorkerId(env, r.userIdentity)
    ensures var row := RunSamples(samples)[id];
            && row.id == id && row.key == r.key && row.userIdentity == r.userIdentity
            && (row.workerLabel, row.payout) == LabelAndPayout(env, r.userIdentity)
            && row.accepted == r.accepted && row.bestDiff == r.bestDiff && row.blocks == r.blocks
            && row.lastSeen == Some(samples[i].now)
            && (row.connected <==> !Superseded(samples, i))
            && row.hashrate == (if Superseded(samples, i) then 0.0 else r.hashrate)
  {
    RunRemembers(samples, id);
  }

  /** Nothing is forgotten: later samples only add ids. */
  lemma {:induction false} NoMinerIsForgotten(samples: seq<Sample>, more: seq<Sample>)
    ensures RunSamples(samples).Keys <= RunSamples(samples + more).Keys
  {
    forall id | id in RunSamples(samples)
      ensures id in RunSamples(samples + more)
    {
      RunRemembers(samples, id);
      RunRemembers(samples + more, id);
      var i :| 0 <= i < |samples| && MentionedIn(samples[i], id);
      assert MentionedIn((samples + more)[i], id);
    }
  }

  // ----- Listings -----

  /** The row's id is the miner id of its label and address. */
  ghost predicate RowNamed(env: Env, row: MinerRow) {
    row.id == MinerId(env.network, row.payout, row.workerLabel)
  }

  ghost predicate AllParsed(env: Env, samples: seq<Sample>) {
    forall i, k :: 0 <= i < |samples| && samples[i].rows.Some? && 0 <= k < |samples[i].rows.value| ==>
                     Parse(env.decode, samples[i].rows.value[k].userIdentity, env.network).Accepted?
  }

  lemma {:induction false} SeenAreKeyed(samples: seq<Sample>)
    ensures Keyed(RunSamples(samples))
  {
    forall id | id in RunSamples(samples)
      ensures RunSamples(samples)[id].id == id
    {
      RunRemembers(samples, id);
      var i := LastMentionExists(samples, id);
      var k := LastRowExists(samples[i].rows.value, id);
      LastSeenIsLastMention(samples, i, k, id);
    }
  }

  lemma {:induction false} SeenComesFromReport(env: Env, samples: seq<Sample>, id: string)
    requires AllReported(env, samples) && id in RunSamples(samples)
    ensures var row := RunSamples(samples)[id];
            && row.id == id == WorkerId(env, row.userIdentity)
            && (row.workerLabel, row.payout) == LabelAndPayout(env, row.userIdentity)
            && (AllParsed(env, samples) ==> Parse(env.decode, row.userIdentity, env.network).Accepted?)
  {
    RunRemembers(samples, id);
    var i := LastMentionExists(samples, id);
    var k := LastRowExists(samples[i].rows.value, id);
    LastSeenIsLastMention(samples, i, k, id);
    ReportedIsConnected(env, samples[i].rows.value[k]);
  }

  lemma {:induction false} SeenAreNamed(env: Env, samples: seq<Sample>, id: string)
    requires Canonical(env.decode) && AllReported(env, samples) && AllParsed(env, samples)
    requires id in RunSamples(samples)
    ensures RowNamed(env, RunSamples(samples)[id])
  {
    SeenComesFromReport(env, samples, id);
    ParsedWorkerId(env, RunSamples(samples)[id].userIdentity);
  }

  lemma ListedRows(list: seq<MinerRow>, seen: Seen)
    requires IsListing(list, seen)
    ensures forall row :: row in list <==> exists id :: id in seen && seen[id] == row
  {
    forall row
      ensures row in list <==> exists id :: id in seen && seen[id] == row
    {
      assert row in multiset(list) <==> row in multiset(seen.Values);
    }
  }

  /** Connected miners come first, then they ascend by label and then by address. */
  lemma ListingIsRanked(list: seq<MinerRow>, seen: Seen, i: nat, j: nat)
    requires IsListing(list, seen) && i < j < |list|
    ensures var a, b := list[i], list[j];
            && (b.connected ==> a.connected)
            && (a.connected == b.connected ==>
                  && StringLeq(a.workerLabel, b.workerLabel)
                  && (a.workerLabel == b.workerLabel ==> StringLeq(a.payout, b.payout)))
  {
    assert RowLeq(list[i], list[j]);
    StringLeqIsTotal(list[i].workerLabel, list[i].workerLabel);
  }

  /** When all identities parse, the listing does not depend on the order in which the map yields its rows. */
  lemma {:induction false} ListingIsDeterministic(
      env: Env, samples: seq<Sample>, list: seq<MinerRow>, other: seq<MinerRow>)
    requires Canonical(env.decode) && AllReported(env, samples) && AllParsed(env, samples)
    requires IsListing(list, RunSamples(samples)) && IsListing(other, RunSamples(samples))
    ensures list == other
  {
    var seen := RunSamples(samples);
    SeenAreKeyed(samples);
    ListedRows(list, seen);
    forall x, y | x in list && y in list && RowLeq(x, y) && RowLeq(y, x)
      ensures x == y
    {
      RowLeqTies(x, y);
      var i :| i in seen && seen[i] == x;
      var j :| j in seen && seen[j] == y;
      SeenAreNamed(env, samples, i);
      SeenAreNamed(env, samples, j);
    }
    RowLeqIsTotalPreorder();
    SortedOrderIsUnique(RowLeq, list, other);
  }

  // ----- From samples to workers -----

  lemma {:induction false} RowsArePushed(rows: seq<MinerRow>, stats: StatMap, now: U64, row: MinerRow)
    requires row in rows
    ensures exists p :: p in RowPushes(rows, stats, now) && p.userIdentity == row.userIdentity
  {
    var before, last := rows[..|rows| - 1], rows[|rows| - 1];
    assert rows == before + [last];
    var stat := Lookup(Leftover(before, stats), last.key);
    var p := Push(last.userIdentity, SessionFromRow(last, stat, now));
    assert RowPushes(rows, stats, now) == RowPushes(before, stats, now) + [p];
    if row != last {
      RowsArePushed(before, stats, now, row);
    }
  }

  /** Every miner ever seen has a worker of the same id in any build from the listing. */
  lemma {:induction false} EverySeenMinerHasAWorker(
      samples: seq<Sample>, input: Input, order: seq<ChannelKey>, list: seq<Worker>, id: string)
    requires AllReported(input.env, samples) && IsListing(input.rows, RunSamples(samples))
    requires IsBuild(input, order, list)
    requires exists i :: 0 <= i < |samples| && MentionedIn(samples[i], id)
    ensures exists w :: w in list && w.id == id
  {
    RunRemembers(samples, id);
    SeenComesFromReport(input.env, samples, id);
    ListedRows(input.rows, RunSamples(samples));
    var row := RunSamples(samples)[id];
    RowsArePushed(input.rows, ByChannel(input.stats), input.now, row);
    OrderIsLeftover(input, order);
    PushHasWorker(input, order, list, row.userIdentity);
  }

  lemma PushHasWorker(input: Input, order: seq<ChannelKey>, list: seq<Worker>, userIdentity: string)
    requires IsBuild(input, order, list)
    requires forall key :: key in order ==> key in Leftover(input.rows, ByChannel(input.stats))
    requires exists p :: p in RowPushes(input.rows, ByChannel(input.stats), input.now) && p.userIdentity == userIdentity
    ensures exists w :: w in list && w.id == WorkerId(input.env, userIdentity)
  {
    var pushes := AllPushes(input, order);
    var p :| p in RowPushes(input.rows, ByChannel(input.stats), input.now) && p.userIdentity == userIdentity;
    assert p in LivePushes(input, order);
    assert p in pushes;
    GroupedKeys(input.env, pushes);
    assert WorkerId(input.env, userIdentity) in Grouped(input.env, pushes);
  }

  /**
   * From samples to workers without any trace of hash-map order: two status
   * responses over the same samples, statistics and known miners list the same
   * workers in the same order, with the same sessions and figures, when all
   * identities parse.
   */
  lemma {:induction false} StatusIsDeterministic(
      samples: seq<Sample>,
      input: Input, order: seq<ChannelKey>, list: seq<Worker>,
      input': Input, order': seq<ChannelKey>, list': seq<Worker>)
    requires Canonical(input.env.decode)
    requires AllReported(input.env, samples) && AllParsed(input.env, samples)
    requires input' == input.(rows := input'.rows)
    requires IsListing(input.rows, RunSamples(samples)) && IsListing(input'.rows, RunSamples(samples))
    requires forall s :: s in input.stats ==> Parse(input.env.decode, s.userIdentity, input.env.network).Accepted?
    requires forall k :: k in input.known ==> Parse(input.env.decode, k.row.userIdentity, input.env.network).Accepted?
    requires IsBuild(input, order, list) && IsBuild(input', order', list')
    ensures Ids(list) == Ids(list') && SameLists(list, list')
  {
    ListingIsDeterministic(input.env, samples, input.rows, input'.rows);
    ListedRows(input.rows, RunSamples(samples));
    forall r | r in input.rows
      ensures Parse(input.env.decode, r.userIdentity, input.env.network).Accepted?
    {
      var id :| id in RunSamples(samples) && RunSamples(samples)[id] == r;
      SeenComesFromReport(input.env, samples, id);
    }
    OrderIsDeterministic(input, order, list, order', list');
  }
}
