/**
 * The job bookkeeping of the test miner: `MinerState` and the dispatch of
 * incoming mining messages, proved against a function on values, which is in
 * turn characterised by the log of messages received so far.
 */
module MinerState {
  import opened Words
  import opened MiningTypes

  datatype ShareMode = BlockOnly | PoolTarget

  /** A job without a minimum ntime is a future job. */
  datatype Job = Job(jobId: U32, version: U32, minNtime: Option<U32>, merkleRoot: seq<Byte>) {
    predicate IsFuture() {
      minNtime.None?
    }
  }

  datatype PrevHash = PrevHash(jobId: U32, prevHash: seq<Byte>, minNtime: U32, nbits: U32)

  /** The mining messages the driver dispatches on; all others are ignored. */
  datatype Message =
    | OpenChannelSuccess(channelId: U32, target: seq<Byte>)
    | SetTarget(maximumTarget: seq<Byte>)
    | NewMiningJob(job: Job)
    | SetNewPrevHash(prevHash: PrevHash)
    | SubmitSharesSuccess
    | SubmitSharesError
    | OtherMessage

  datatype Outcome = NoWork | NewWork(work: MiningWork) | AcceptedShare | Failed

  /** The fields of the miner state as one value. */
  datatype View = View(
    mode: ShareMode,
    channelId: Option<U32>,
    sequence: U32,
    poolTarget: Option<Target>,
    jobs: seq<Job>,
    prevHash: Option<PrevHash>)

  function InitialView(mode: ShareMode): View {
    View(mode, None, 0, None, [], None)
  }

  // ----- Operations on views -----

  function FindJob(jobs: seq<Job>, id: U32): Option<Job> {
    if jobs == [] then None
    else if jobs[0].jobId == id then Some(jobs[0])
    else FindJob(jobs[1..], id)
  }

  /** The jobs stored under other ids, in order. */
  function Others(jobs: seq<Job>, id: U32): seq<Job> {
    if jobs == [] then []
    else (if jobs[0].jobId == id then [] else [jobs[0]]) + Others(jobs[1..], id)
  }

  function StoreJob(jobs: seq<Job>, job: Job): seq<Job> {
    Others(jobs, job.jobId) + [job]
  }

  function SelectTarget(mode: ShareMode, poolTarget: Target, nbits: U32): Target {
    match mode
    case BlockOnly => FromCompact(nbits)
    case PoolTarget => poolTarget
  }

  function WorkFor(mode: ShareMode, channelId: U32, poolTarget: Target, prev: PrevHash, job: Job, clock: U32)
    : MiningWork
  {
    MiningWork(
      channelId, job.jobId, job.version, prev.prevHash, job.merkleRoot, prev.nbits,
      if clock >= prev.minNtime then clock else prev.minNtime,
      SelectTarget(mode, poolTarget, prev.nbits))
  }

  /** What `active_work` answers at time `clock`. */
  function ActiveWork(v: View, clock: U32): Outcome {
    if v.channelId.None? || v.prevHash.None? || v.poolTarget.None? then NoWork
    else
      var prev := v.prevHash.value;
      match FindJob(v.jobs, prev.jobId)
      case None => NoWork
      case Some(job) =>
        if |prev.prevHash| != 32 || |job.merkleRoot| != 32 then Failed
        else NewWork(WorkFor(v.mode, v.channelId.value, v.poolTarget.value, prev, job, clock))
  }

  function AfterJob(v: View, job: Job): View {
    v.(jobs := StoreJob(v.jobs, job))
  }

  function AfterTarget(v: View, bytes: seq<Byte>): View {
    if |bytes| == 32 then v.(poolTarget := Some(FromLeBytes(bytes))) else v
  }

  /** The view after a message. */
  function AfterMessage(v: View, m: Message): View {
    match m
    case OpenChannelSuccess(id, target) => AfterTarget(v.(channelId := Some(id)), target)
    case SetTarget(target) => AfterTarget(v, target)
    case NewMiningJob(job) => AfterJob(v, job)
    case SetNewPrevHash(prev) => v.(prevHash := Some(prev))
    case _ => v
  }

  /** What the dispatch of a message tells the driver, given the view after it. */
  function OutcomeOf(after: View, m: Message, clock: U32): Outcome {
    match m
    case OpenChannelSuccess(_, target) => if |target| == 32 then ActiveWork(after, clock) else Failed
    case SetTarget(target) => if |target| == 32 then ActiveWork(after, clock) else Failed
    case NewMiningJob(job) => if job.IsFuture() then NoWork else ActiveWork(after, clock)
    case SetNewPrevHash(_) => ActiveWork(after, clock)
    case SubmitSharesSuccess => AcceptedShare
    case _ => NoWork
  }

  // ----- The stateful miner -----

  class Miner {
    const shareMode: ShareMode
    var channelId: Option<U32>
    var sequenceNumber: U32
    var poolTarget: Option<Target>
    var jobs: seq<Job>
    var prevHash: Option<PrevHash>

    function Now(): View
      reads this
    {
      View(shareMode, channelId, sequenceNumber, poolTarget, jobs, prevHash)
    }

    constructor (mode: ShareMode)
      ensures Now() == InitialView(mode)
    {
      shareMode := mode;
      channelId, sequenceNumber, poolTarget, jobs, prevHash := None, 0, None, [], None;
    }

    method NextSequenceNumber() returns (n: U32)
      modifies this`sequenceNumber
      ensures n == WrapAdd32(old(sequenceNumber), 1)
      ensures Now() == old(Now()).(sequence := n)
    {
      sequenceNumber := WrapAdd32(sequenceNumber, 1);
      n := sequenceNumber;
    }

    /** Scans the stored jobs in order for the id of the last prev-hash. */
    method CurrentWork(clock: U32) returns (r: Outcome)
      ensures r == ActiveWork(Now(), clock)
    {
      if channelId.None? || prevHash.None? || poolTarget.None? {
        return NoWork;
      }
      var prev := prevHash.value;
      var i := 0;
      while i < |jobs| && jobs[i].jobId != prev.jobId
        invariant 0 <= i <= |jobs|
        invariant FindJob(jobs, prev.jobId) == FindJob(jobs[i..], prev.jobId)
      {
        i := i + 1;
      }
      if i == |jobs| {
        return NoWork;
      }
      var job := jobs[i];
      if |prev.prevHash| != 32 || |job.merkleRoot| != 32 {
        return Failed;
      }
      r := NewWork(WorkFor(shareMode, channelId.value, poolTarget.value, prev, job, clock));
    }

    /** Drops the job stored under the same id, keeping the order of the others. */
    method RetainOthers(id: U32)
      modifies this`jobs
      ensures jobs == Others(old(jobs), id)
    {
      var kept: seq<Job> := [];
      var i := 0;
      while i < |jobs|
        invariant 0 <= i <= |jobs|
        invariant jobs == old(jobs)
        invariant kept + Others(jobs[i..], id) == Others(jobs, id)
      {
        assert jobs[i..][0] == jobs[i] && jobs[i..][1..] == jobs[i + 1..];
        if jobs[i].jobId != id {
          kept := kept + [jobs[i]];
        }
        i := i + 1;
      }
      jobs := kept;
    }

    method UpdateJob(job: Job, clock: U32) returns (r: Outcome)
      modifies this`jobs
      ensures Now() == AfterMessage(old(Now()), NewMiningJob(job))
      ensures r == OutcomeOf(Now(), NewMiningJob(job), clock)
    {
      RetainOthers(job.jobId);
      jobs := jobs + [job];
      if job.IsFuture() {
        return NoWork;
      }
      r := CurrentWork(clock);
    }

    method UpdatePrevHash(prev: PrevHash, clock: U32) returns (r: Outcome)
      modifies this`prevHash
      ensures Now() == AfterMessage(old(Now()), SetNewPrevHash(prev))
      ensures r == OutcomeOf(Now(), SetNewPrevHash(prev), clock)
    {
      prevHash := Some(prev);
      r := CurrentWork(clock);
    }

    method UpdatePoolTarget(bytes: seq<Byte>, clock: U32) returns (r: Outcome)
      modifies this`poolTarget
      ensures Now() == AfterMessage(old(Now()), SetTarget(bytes))
      ensures r == OutcomeOf(Now(), SetTarget(bytes), clock)
    {
      if |bytes| != 32 {
        return Failed;
      }
      poolTarget := Some(FromLeBytes(bytes));
      r := CurrentWork(clock);
    }

    method HandleFrame(m: Message, clock: U32) returns (r: Outcome)
      modifies this
      ensures Now() == AfterMessage(old(Now()), m)
      ensures r == OutcomeOf(Now(), m, clock)
    {
      match m
      case OpenChannelSuccess(id, target) =>
        channelId := Some(id);
        r := UpdatePoolTarget(target, clock);
      case SetTarget(target) =>
        r := UpdatePoolTarget(target, clock);
      case NewMiningJob(job) =>
        r := UpdateJob(job, clock);
      case SetNewPrevHash(prev) =>
        r := UpdatePrevHash(prev, clock);
      case SubmitSharesSuccess =>
        r := AcceptedShare;
      case _ =>
        r := NoWork;
    }
  }

  // ----- What the stored jobs amount to -----

  ghost predicate DistinctIds(jobs: seq<Job>) {
    forall i, j :: 0 <= i < j < |jobs| ==> jobs[i].jobId != jobs[j].jobId
  }

  lemma {:induction false} OthersKeepsTheRest(jobs: seq<Job>, id: U32)
    ensures forall job :: job in Others(jobs, id) <==> job in jobs && job.jobId != id
    ensures DistinctIds(jobs) ==> DistinctIds(Others(jobs, id))
  {
    if jobs == [] {
    } else {
      OthersKeepsTheRest(jobs[1..], id);
      assert jobs == [jobs[0]] + jobs[1..];
    }
  }

  lemma {:induction false} FindAfterStore(jobs: seq<Job>, job: Job, id: U32)
    ensures FindJob(StoreJob(jobs, job), id) == if id == job.jobId then Some(job) else FindJob(jobs, id)
  {
    if jobs == [] {
    } else {
      FindAfterStore(jobs[1..], job, id);
      var rest := Others(jobs[1..], job.jobId) + [job];
      if jobs[0].jobId == job.jobId {
        assert StoreJob(jobs, job) == rest;
      } else {
        assert StoreJob(jobs, job) == [jobs[0]] + rest;
        assert StoreJob(jobs, job)[1..] == rest;
      }
    }
  }

  // ----- The log of messages -----

  /** A message with the clock reading its handling used. */
  datatype Stamped = Stamped(message: Message, clock: U32)

  function Replay(mode: ShareMode, log: seq<Stamped>): View {
    if log == [] then InitialView(mode)
    else AfterMessage(Replay(mode, log[..|log| - 1]), log[|log| - 1].message)
  }

  /** What the driver was told about the last message of a log. */
  function LastOutcome(mode: ShareMode, log: seq<Stamped>): Outcome
    requires log != []
  {
    var last := log[|log| - 1];
    OutcomeOf(Replay(mode, log), last.message, last.clock)
  }

  /** The most recent value that a message of the log carries for one purpose. */
  function Latest<T>(log: seq<Stamped>, pick: Message -> Option<T>): Option<T> {
    if log == [] then None
    else
      var here := pick(log[|log| - 1].message);
      if here.Some? then here else Latest(log[..|log| - 1], pick)
  }

  /** `Latest` by position in the log. */
  lemma {:induction false} LatestIsTheLast<T>(log: seq<Stamped>, pick: Message -> Option<T>)
    ensures Latest(log, pick).None? ==> forall i :: 0 <= i < |log| ==> pick(log[i].message).None?
    ensures Latest(log, pick).Some? ==>
              exists i :: && 0 <= i < |log|
                          && pick(log[i].message) == Latest(log, pick)
                          && forall j :: i < j < |log| ==> pick(log[j].message).None?
  {
    if log == [] {
    } else {
      var last := |log| - 1;
      if pick(log[last].message).None? {
        LatestIsTheLast(log[..last], pick);
        if Latest(log, pick).Some? {
          var i :| && 0 <= i < last
                   && pick(log[..last][i].message) == Latest(log, pick)
                   && forall j :: i < j < last ==> pick(log[..last][j].message).None?;
          assert pick(log[i].message) == Latest(log, pick);
          forall j | i < j < |log|
            ensures pick(log[j].message).None?
          {
            assert j < last ==> log[..last][j] == log[j];
          }
        } else {
          forall i | 0 <= i < |log|
            ensures pick(log[i].message).None?
          {
            assert i < last ==> log[..last][i] == log[i];
          }
        }
      } else {
        assert pick(log[last].message) == Latest(log, pick);
      }
    }
  }

  function ChannelIn(m: Message): Option<U32> {
    if m.OpenChannelSuccess? then Some(m.channelId) else None
  }

  /** The bytes of a pool target, if there are as many as there must be. */
  function TargetIn(m: Message): Option<seq<Byte>> {
    match m
    case OpenChannelSuccess(_, target) => if |target| == 32 then Some(target) else None
    case SetTarget(target) => if |target| == 32 then Some(target) else None
    case _ => None
  }

  function PrevHashIn(m: Message): Option<PrevHash> {
    if m.SetNewPrevHash? then Some(m.prevHash) else None
  }

  function JobIn(id: U32): Message -> Option<Job> {
    (m: Message) => if m.NewMiningJob? && m.job.jobId == id then Some(m.job) else None
  }

  /** The state is exactly the latest channel, target, prev-hash and job of each id. */
  lemma {:induction false} StateIsLatest(mode: ShareMode, log: seq<Stamped>, id: U32)
    ensures Replay(mode, log).mode == mode
    ensures Replay(mode, log).sequence == 0
    ensures Replay(mode, log).channelId == Latest(log, ChannelIn)
    ensures Replay(mode, log).poolTarget
            == if Latest(log, TargetIn).Some? then Some(FromLeBytes(Latest(log, TargetIn).value)) else None
    ensures Replay(mode, log).prevHash == Latest(log, PrevHashIn)
    ensures FindJob(Replay(mode, log).jobs, id) == Latest(log, JobIn(id))
  {
    if log == [] {
    } else {
      var before := log[..|log| - 1];
      StateIsLatest(mode, before, id);
      var m := log[|log| - 1].message;
      if m.NewMiningJob? {
        FindAfterStore(Replay(mode, before).jobs, m.job, id);
      }
    }
  }

  /** Over every message sequence the stored job ids stay pairwise distinct. */
  lemma {:induction false} StoredJobsAreDistinct(mode: ShareMode, log: seq<Stamped>)
    ensures DistinctIds(Replay(mode, log).jobs)
  {
    if log == [] {
    } else {
      StoredJobsAreDistinct(mode, log[..|log| - 1]);
      var m := log[|log| - 1].message;
      if m.NewMiningJob? {
        OthersKeepsTheRest(Replay(mode, log[..|log| - 1]).jobs, m.job.jobId);
      }
    }
  }

  /** The messages that can start work: every one but a future job and the share answers. */
  predicate CanStartWork(m: Message) {
    match m
    case OpenChannelSuccess(_, target) => |target| == 32
    case SetTarget(target) => |target| == 32
    case NewMiningJob(job) => !job.IsFuture()
    case SetNewPrevHash(_) => true
    case _ => false
  }

  /** A channel, a pool target, a prev-hash and the job it names have all been received. */
  predicate AllPresent(log: seq<Stamped>) {
    && Latest(log, ChannelIn).Some?
    && Latest(log, TargetIn).Some?
    && Latest(log, PrevHashIn).Some?
    && Latest(log, JobIn(Latest(log, PrevHashIn).value.jobId)).Some?
  }

  function LatestPrevHash(log: seq<Stamped>): PrevHash
    requires AllPresent(log)
  {
    Latest(log, PrevHashIn).value
  }

  /** The latest job of the id that the latest prev-hash names. */
  function LatestJob(log: seq<Stamped>): Job
    requires AllPresent(log)
  {
    Latest(log, JobIn(LatestPrevHash(log).jobId)).value
  }

  /** Starts at the clock reading or at the minimum time of the prev-hash, whichever is later. */
  predicate StartsAt(ntime: U32, clock: U32, minNtime: U32) {
    clock <= ntime && minNtime <= ntime && (ntime == clock || ntime == minNtime)
  }

  /** Every field of a piece of work in terms of the latest messages of a log. */
  ghost predicate IsLatestWork(mode: ShareMode, log: seq<Stamped>, work: MiningWork) {
    && log != [] && AllPresent(log)
    && var prev, job := LatestPrevHash(log), LatestJob(log);
       && Latest(log, ChannelIn) == Some(work.channelId)
       && work.jobId == prev.jobId == job.jobId
       && work.version == job.version
       && work.merkleRoot == job.merkleRoot && |work.merkleRoot| == 32
       && work.prevHash == prev.prevHash && |work.prevHash| == 32
       && work.nbits == prev.nbits
       && StartsAt(work.ntime, log[|log| - 1].clock, prev.minNtime)
       && (mode == BlockOnly ==> work.target == FromCompact(prev.nbits))
       && (mode == PoolTarget ==> work.target == FromLeBytes(Latest(log, TargetIn).value))
  }

  /**
   * Work is emitted exactly when a message that can start work completes or
   * refreshes the set, and then it pairs the latest job stored under the id
   * that the most recent prev-hash names with the latest channel, prev-hash
   * and target of the mode.
   */
  lemma EmittedWorkIsLatest(mode: ShareMode, log: seq<Stamped>)
    requires log != []
    ensures LastOutcome(mode, log).NewWork? <==>
            && CanStartWork(log[|log| - 1].message)
            && AllPresent(log)
            && |LatestPrevHash(log).prevHash| == 32
            && |LatestJob(log).merkleRoot| == 32
    ensures LastOutcome(mode, log).NewWork? ==> IsLatestWork(mode, log, LastOutcome(mode, log).work)
  {
    var v := Replay(mode, log);
    var id := if v.prevHash.Some? then v.prevHash.value.jobId else 0;
    StateIsLatest(mode, log, id);
    LatestJobHasId(log, id);
  }

  lemma {:induction false} LatestJobHasId(log: seq<Stamped>, id: U32)
    ensures Latest(log, JobIn(id)).Some? ==> Latest(log, JobIn(id)).value.jobId == id
  {
    LatestIsTheLast(log, JobIn(id));
  }

  // ----- What a header is judged by -----

  /** The header that the latest messages of a log demand for a nonce and a time. */
  function LatestHeader(log: seq<Stamped>, nonce: U32, ntime: U32): Header
    requires AllPresent(log)
  {
    Header(
      version := LatestJob(log).version,
      prevBlockHash := LatestPrevHash(log).prevHash,
      merkleRoot := LatestJob(log).merkleRoot,
      time := ntime,
      bits := LatestPrevHash(log).nbits,
      nonce := nonce)
  }

  /** The target that the latest messages of a log demand. */
  function LatestTarget(mode: ShareMode, log: seq<Stamped>): Target
    requires AllPresent(log)
  {
    if mode == BlockOnly then FromCompact(LatestPrevHash(log).nbits) else FromLeBytes(Latest(log, TargetIn).value)
  }

  /** A worker judges a pair by the header and the target that the latest messages demand. */
  lemma JudgedByLatest(mode: ShareMode, log: seq<Stamped>, work: MiningWork, meets: Meets, c: Candidate)
    requires IsLatestWork(mode, log, work)
    ensures Hits(meets, work, c) <==> meets(LatestTarget(mode, log), LatestHeader(log, c.nonce, c.ntime))
  {
  }

  /** All the works that a log makes the driver emit, in order. */
  function WorksIn(mode: ShareMode, log: seq<Stamped>): seq<MiningWork> {
    if log == [] then []
    else
      var outcome := LastOutcome(mode, log);
      WorksIn(mode, log[..|log| - 1]) + if outcome.NewWork? then [outcome.work] else []
  }
}
