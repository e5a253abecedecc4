/**
 The orchestrator, `handle_build_job`: write the "queued" status, take the
 lock, write "building", run the build, and in the `finally` block write
 the final receipt and release the lock if it was taken. Each collaborator
 call is replaced by the outcome it yields; the lock and receipt stores
 are the maps of Locks and Receipts. A write that raises leaves its store
 unchanged.
 */
module Jobs {
  import opened Outcomes
  import opened Config
  import opened Targets
  import opened Locks
  import opened Receipts
  import opened Builds

  /** The two document collections the orchestrator touches. */
  datatype World = World(locks: LockStore, receipts: ReceiptStore)

  /** The clock readings of one job: `started_at`, the lock's own `now`, the
      `deployed_at` reading after a successful build, and `finished_at`. */
  datatype Clock = Clock(started: Instant, lockNow: Instant, deployedNow: Instant, finished: Instant)

  /** What the store writes, the build and the release yield. */
  datatype JobSteps = JobSteps(
    queuedWrite: Outcome,
    buildingWrite: Outcome,
    build: Steps,
    finalWrite: Outcome,
    release: Outcome)

  /** The calls the orchestrator makes, in order. */
  datatype Event =
    | StatusWrite(status: Status)
    | LockAcquire
    | BuildStep(effect: Effect)
    | ReceiptWrite(status: Status)
    | LockRelease

  /** The state the `try` block leaves: the lock store, the calls made, the
      caught error, `deployed_at` and `lock_acquired`. */
  datatype Attempt = Attempt(
    locks: LockStore,
    trace: seq<Event>,
    error: Option<Fault>,
    deployedAt: Option<Instant>,
    lockAcquired: bool)

  /** A whole job as the orchestrator sees it: the lock store after the
      `finally` block, the calls made, the final status, and the exception
      that escapes `handle_build_job`, if any. */
  datatype JobRun = JobRun(
    locks: LockStore,
    trace: seq<Event>,
    status: Status,
    error: Option<Fault>,
    deployedAt: Option<Instant>,
    lockAcquired: bool,
    escaped: Option<Fault>)

  /** What `handle_build_job` leaves behind: both stores, and the run. */
  datatype Handled = Handled(world: World, run: JobRun)

  function BuildEvents(effects: seq<Effect>): (t: seq<Event>)
    ensures |t| == |effects|
    ensures forall i :: 0 <= i < |t| ==> t[i] == BuildStep(effects[i])
  {
    seq(|effects|, i requires 0 <= i < |effects| => BuildStep(effects[i]))
  }

  /** The lock for the job's key is free at `now`. */
  predicate LockFree(locks: LockStore, job: Job, now: Instant) {
    !(KeyOf(job) in locks && Blocks(locks[KeyOf(job)], now))
  }

  /** Every step of the `try` block returns normally. */
  predicate AllStepsSucceed(job: Job, rt: RuntimeConfig, world: World, steps: JobSteps, clock: Clock) {
    && steps.queuedWrite.Pass?
    && LockFree(world.locks, job, clock.lockNow)
    && steps.buildingWrite.Pass?
    && PreparedAndRendered(job, rt, steps.build)
    && Published(job, rt, steps.build)
  }

  /** The calls the `try` block makes: the queued write; the acquire once
      that write returned; the building write once the lock is held; the
      build's effects once that write returned. */
  function TryCalls(queued: bool, acquired: bool, building: bool, effects: seq<Effect>): seq<Event> {
    [StatusWrite(Queued)]
    + (if queued then [LockAcquire] else [])
    + (if acquired then [StatusWrite(Building)] else [])
    + (if acquired && building then BuildEvents(effects) else [])
  }

  /** The `try` block calls neither the receipt write nor the release, calls
      the acquire only after the queued write and writes "building" only
      once the lock is held, right after the acquire. */
  lemma TryCallOrder(queued: bool, acquired: bool, building: bool, effects: seq<Effect>)
    requires acquired ==> queued
    ensures var t := TryCalls(queued, acquired, building, effects);
      && 1 <= |t| && t[0] == StatusWrite(Queued)
      && (forall i :: 0 <= i < |t| ==> t[i] != LockRelease && !t[i].ReceiptWrite?)
      && (forall i :: 0 <= i < |t| && t[i] == LockAcquire ==> i == 1 && queued)
      && (forall i :: 0 <= i < |t| && t[i] == StatusWrite(Building) ==> i == 2 && t[1] == LockAcquire && acquired)
  {
    var t := TryCalls(queued, acquired, building, effects);
    var head := [StatusWrite(Queued)] + (if queued then [LockAcquire] else [])
              + (if acquired then [StatusWrite(Building)] else []);
    var tail := if acquired && building then BuildEvents(effects) else [];
    assert t == head + tail;
    forall i | 0 <= i < |t|
      ensures t[i] != LockRelease && !t[i].ReceiptWrite?
      ensures t[i] == LockAcquire ==> i == 1 && queued
      ensures t[i] == StatusWrite(Building) ==> i == 2 && t[1] == LockAcquire && acquired
    {
      if i >= |head| {
        assert t[i] == tail[i - |head|];
      } else if i == 0 {
      } else if i == 1 && queued {
      } else {
        assert i == 2 && acquired;
      }
    }
  }

  /** The status writes that returned, merged into the receipt store in order. */
  function StatusWrites(receipts: ReceiptStore, job: Job, started: Instant, queued: bool, building: bool): ReceiptStore {
    var afterQueued := if queued then WriteReceiptStatus(receipts, job, Queued, started, None) else receipts;
    if building then WriteReceiptStatus(afterQueued, job, Building, started, None) else afterQueued
  }

  /** The `try` block, given what `_run_build` yields. Each step runs only
      when every earlier one returned: `queued`, `acquired`, `building` and
      `built` say how far it got. */
  function Try(job: Job, ttlSeconds: int, world: World, steps: JobSteps, clock: Clock, run: BuildRun): (a: Attempt)
    ensures a.lockAcquired <==> steps.queuedWrite.Pass? && LockFree(world.locks, job, clock.lockNow)
    ensures a.error.None? <==> a.lockAcquired && steps.buildingWrite.Pass? && run.outcome.Ok?
    ensures steps.queuedWrite.Fail? ==> a.error == Some(steps.queuedWrite.error)
    ensures steps.queuedWrite.Pass? && !a.lockAcquired ==> a.error == Some(LockConflict(job.orgId, job.verticalKey))
    ensures a.lockAcquired && steps.buildingWrite.Fail? ==> a.error == Some(steps.buildingWrite.error)
    ensures a.lockAcquired && steps.buildingWrite.Pass? && run.outcome.Err? ==> a.error == Some(run.outcome.error)
    ensures a.deployedAt == if a.error.None? then Some(clock.deployedNow) else None
    ensures a.locks == if a.lockAcquired then Acquire(world.locks, job, ttlSeconds, clock.lockNow).store
                       else world.locks
  {
    var queued := steps.queuedWrite.Pass?;
    var txn := Acquire(world.locks, job, ttlSeconds, clock.lockNow);
    var acquired := queued && txn.outcome.Pass?;
    var building := acquired && steps.buildingWrite.Pass?;
    var built := building && run.outcome.Ok?;
    var error :=
      if !queued then Some(steps.queuedWrite.error)
      else if !acquired then Some(txn.outcome.error)
      else if !building then Some(steps.buildingWrite.error)
      else if !built then Some(run.outcome.error)
      else None;
    Attempt(
      if acquired then txn.store else world.locks,
      TryCalls(queued, acquired, steps.buildingWrite.Pass?, run.effects),
      error,
      if built then Some(clock.deployedNow) else None,
      acquired)
  }

  /** The `finally` block over the state the `try` block left. */
  function Finally(job: Job, steps: JobSteps, a: Attempt): (r: JobRun)
    ensures r.status == (if a.error.None? then Deployed else Failed)
    ensures r.error == a.error && r.deployedAt == a.deployedAt && r.lockAcquired == a.lockAcquired
    ensures r.trace == a.trace + [ReceiptWrite(r.status)] + (if a.lockAcquired && steps.finalWrite.Pass? then [LockRelease] else [])
    ensures steps.finalWrite.Fail? ==> r.escaped == Some(steps.finalWrite.error)
    ensures steps.finalWrite.Pass? && a.lockAcquired && steps.release.Fail? ==> r.escaped == Some(steps.release.error)
    ensures steps.finalWrite.Pass? && !(a.lockAcquired && steps.release.Fail?) ==> r.escaped == None
    ensures r.locks == if a.lockAcquired && steps.finalWrite.Pass? && steps.release.Pass?
                       then Release(a.locks, KeyOf(job)) else a.locks
  {
    var status := if a.error.None? then Deployed else Failed;
    var recorded := a.trace + [ReceiptWrite(status)];
    if steps.finalWrite.Fail? then
      JobRun(a.locks, recorded, status, a.error, a.deployedAt, a.lockAcquired, Some(steps.finalWrite.error))
    else if !a.lockAcquired then JobRun(a.locks, recorded, status, a.error, a.deployedAt, false, None)
    else if steps.release.Fail? then
      JobRun(a.locks, recorded + [LockRelease], status, a.error, a.deployedAt, true, Some(steps.release.error))
    else
      JobRun(Release(a.locks, KeyOf(job)), recorded + [LockRelease], status, a.error, a.deployedAt, true, None)
  }

  /** The whole job for a given build result. */
  function RunJob(job: Job, ttlSeconds: int, world: World, steps: JobSteps, clock: Clock, run: BuildRun): JobRun {
    Finally(job, steps, Try(job, ttlSeconds, world, steps, clock, run))
  }

  /** The receipt store after the job: the status writes that returned, then
      the final receipt if its write returned. `lockAcquired` and the outcome
      are those of the run. */
  function JobReceipts(receipts: ReceiptStore, job: Job, steps: JobSteps, clock: Clock, r: JobRun): ReceiptStore {
    var written := StatusWrites(receipts, job, clock.started, steps.queuedWrite.Pass?,
                                r.lockAcquired && steps.buildingWrite.Pass?);
    if steps.finalWrite.Pass? then
      WriteReceipt(written, job, r.status, clock.started, clock.finished, r.deployedAt, r.error)
    else written
  }

  /** `handle_build_job`. A final write that raises escapes before the
      release; a release that raises escapes after the receipt is stored. */
  function HandleBuildJob(job: Job, rt: RuntimeConfig, world: World, steps: JobSteps, clock: Clock): (h: Handled)
    ensures h.run.status == Deployed || h.run.status == Failed
    ensures h.run.lockAcquired <==> steps.queuedWrite.Pass? && LockFree(world.locks, job, clock.lockNow)
    ensures h.world.locks == h.run.locks
    ensures steps.finalWrite.Fail? ==> h.run.escaped == Some(steps.finalWrite.error)
    ensures steps.finalWrite.Pass? && h.run.lockAcquired && steps.release.Fail? ==> h.run.escaped == Some(steps.release.error)
    ensures steps.finalWrite.Pass? && !(h.run.lockAcquired && steps.release.Fail?) ==> h.run.escaped == None
  {
    var r := RunJob(job, rt.lockTtlSeconds, world, steps, clock, RunBuild(job, rt, steps.build));
    Handled(World(r.locks, JobReceipts(world.receipts, job, steps, clock, r)), r)
  }

  // ---------------------------------------------------------------------
  // Status, error and deployedAt.

  /** The job is deployed exactly when every step of the `try` block returns;
      there is no other final status. */
  lemma DeployedIffAllStepsSucceed(job: Job, rt: RuntimeConfig, world: World, steps: JobSteps, clock: Clock)
    ensures var r := HandleBuildJob(job, rt, world, steps, clock).run;
      && (r.status == Deployed <==> AllStepsSucceed(job, rt, world, steps, clock))
      && (r.status == Failed <==> !AllStepsSucceed(job, rt, world, steps, clock))
      && (r.error.None? <==> r.status == Deployed)
  {
  }

  /** For every build result, the recorded error is the exception of the
      first step that raised, and `deployedAt` is set exactly on success. */
  lemma ErrorIsFirstFailure(job: Job, ttlSeconds: int, world: World, steps: JobSteps, clock: Clock, run: BuildRun)
    ensures var r := RunJob(job, ttlSeconds, world, steps, clock, run);
      && (steps.queuedWrite.Fail? ==> r.error == Some(steps.queuedWrite.error))
      && (steps.queuedWrite.Pass? && !LockFree(world.locks, job, clock.lockNow) ==>
            r.error == Some(LockConflict(job.orgId, job.verticalKey)))
      && (steps.queuedWrite.Pass? && LockFree(world.locks, job, clock.lockNow) && steps.buildingWrite.Fail? ==>
            r.error == Some(steps.buildingWrite.error))
      && (steps.queuedWrite.Pass? && LockFree(world.locks, job, clock.lockNow) && steps.buildingWrite.Pass?
            && run.outcome.Err? ==>
            r.error == Some(run.outcome.error))
      && (r.status == Deployed <==>
            steps.queuedWrite.Pass? && LockFree(world.locks, job, clock.lockNow) && steps.buildingWrite.Pass?
            && run.outcome.Ok?)
      && r.deployedAt == if r.status == Deployed then Some(clock.deployedNow) else None
  {
  }

  /** A local build that succeeds is recorded as deployed, with a deploy time,
      although `_run_build` reported that nothing was deployed; and no
      deploy is started. */
  lemma LocalBuildRecordsDeployedAt(job: Job, rt: RuntimeConfig, world: World, steps: JobSteps, clock: Clock)
    requires job.buildTarget.Obj? && SiteOf(job.buildTarget.fields) == LocalSite
    requires AllStepsSucceed(job, rt, world, steps, clock)
    ensures RunBuild(job, rt, steps.build).outcome == Ok(false)
    ensures var r := HandleBuildJob(job, rt, world, steps, clock).run;
      r.status == Deployed && r.deployedAt == Some(clock.deployedNow)
  {
    LocalSiteNeverDeploys(job, rt, steps.build);
  }

  // ---------------------------------------------------------------------
  // Call order.

  /** The `finally` block appends the receipt write and then, only when
      the lock was taken and the write returned, the release. */
  lemma FinallyOrdersReceiptBeforeRelease(job: Job, steps: JobSteps, clock: Clock, a: Attempt)
    requires forall i :: 0 <= i < |a.trace| ==> a.trace[i] != LockRelease
    ensures var r := Finally(job, steps, a);
      && 1 <= |r.trace|
      && ((exists i :: 0 <= i < |r.trace| && r.trace[i] == LockRelease) <==> a.lockAcquired && steps.finalWrite.Pass?)
      && (forall i :: 0 <= i < |r.trace| && r.trace[i] == LockRelease ==>
            i == |r.trace| - 1 && i >= 1 && r.trace[i - 1] == ReceiptWrite(r.status))
      && (r.trace[|r.trace| - 1] == ReceiptWrite(r.status) || r.trace[|r.trace| - 1] == LockRelease)
  {
    var r := Finally(job, steps, a);
    var n := |a.trace|;
    if a.lockAcquired && steps.finalWrite.Pass? {
      assert r.trace == a.trace + [ReceiptWrite(r.status), LockRelease];
      assert r.trace[n + 1] == LockRelease;
      forall i | 0 <= i < n
        ensures r.trace[i] != LockRelease
      {
        assert r.trace[i] == a.trace[i];
      }
    } else {
      assert r.trace == a.trace + [ReceiptWrite(r.status)];
      forall i | 0 <= i < |r.trace|
        ensures r.trace[i] != LockRelease
      {
        if i < n {
          assert r.trace[i] == a.trace[i];
        }
      }
    }
  }

  /** For every build result: `release_lock` is called exactly when the lock
      was taken and the final write returned, and it is the last call, right
      after the receipt write, which every run attempts. */
  lemma ReleaseFollowsReceipt(job: Job, ttlSeconds: int, world: World, steps: JobSteps, clock: Clock, run: BuildRun)
    ensures var r := RunJob(job, ttlSeconds, world, steps, clock, run);
      && ((exists i :: 0 <= i < |r.trace| && r.trace[i] == LockRelease) <==> r.lockAcquired && steps.finalWrite.Pass?)
      && (forall i :: 0 <= i < |r.trace| && r.trace[i] == LockRelease ==>
            i == |r.trace| - 1 && i >= 1 && r.trace[i - 1] == ReceiptWrite(r.status))
      && 1 <= |r.trace|
      && (r.trace[|r.trace| - 1] == ReceiptWrite(r.status) || r.trace[|r.trace| - 1] == LockRelease)
  {
    var a := Try(job, ttlSeconds, world, steps, clock, run);
    TryCallOrder(steps.queuedWrite.Pass?, a.lockAcquired, steps.buildingWrite.Pass?, run.effects);
    FinallyOrdersReceiptBeforeRelease(job, steps, clock, a);
  }

  /** For every build result: the acquire is called only after the queued
      write returned, and "building" is written only once the lock is held,
      right after the acquire. */
  lemma BuildingOnlyAfterAcquire(job: Job, ttlSeconds: int, world: World, steps: JobSteps, clock: Clock, run: BuildRun)
    ensures var r := RunJob(job, ttlSeconds, world, steps, clock, run);
      && r.trace[0] == StatusWrite(Queued)
      && (forall i :: 0 <= i < |r.trace| && r.trace[i] == LockAcquire ==> i == 1 && steps.queuedWrite.Pass?)
      && (forall i :: 0 <= i < |r.trace| && r.trace[i] == StatusWrite(Building) ==>
            i == 2 && r.trace[1] == LockAcquire && r.lockAcquired)
  {
    var a := Try(job, ttlSeconds, world, steps, clock, run);
    TryCallOrder(steps.queuedWrite.Pass?, a.lockAcquired, steps.buildingWrite.Pass?, run.effects);
    FinallyKeepsTryOrder(job, steps, clock, a, steps.queuedWrite.Pass?);
  }

  /** The `finally` block keeps where the `try` block placed the acquire and
      the building write. */
  lemma FinallyKeepsTryOrder(job: Job, steps: JobSteps, clock: Clock, a: Attempt, queued: bool)
    requires 1 <= |a.trace| && a.trace[0] == StatusWrite(Queued)
    requires forall i :: 0 <= i < |a.trace| && a.trace[i] == LockAcquire ==> i == 1 && queued
    requires forall i :: 0 <= i < |a.trace| && a.trace[i] == StatusWrite(Building) ==>
      i == 2 && a.trace[1] == LockAcquire && a.lockAcquired
    ensures var r := Finally(job, steps, a);
      && r.trace[0] == StatusWrite(Queued)
      && (forall i :: 0 <= i < |r.trace| && r.trace[i] == LockAcquire ==> i == 1 && queued)
      && (forall i :: 0 <= i < |r.trace| && r.trace[i] == StatusWrite(Building) ==>
            i == 2 && r.trace[1] == LockAcquire && r.lockAcquired)
  {
    var r := Finally(job, steps, a);
    var tail := [ReceiptWrite(r.status)] + (if a.lockAcquired && steps.finalWrite.Pass? then [LockRelease] else []);
    assert r.trace == a.trace + tail;
    AppendKeepsOrder(a.trace, tail, queued, a.lockAcquired);
  }

  /** Appending calls other than the acquire and the building write keeps
      where those two stand. */
  lemma AppendKeepsOrder(t: seq<Event>, tail: seq<Event>, queued: bool, acquired: bool)
    requires 1 <= |t| && t[0] == StatusWrite(Queued)
    requires forall i :: 0 <= i < |t| && t[i] == LockAcquire ==> i == 1 && queued
    requires forall i :: 0 <= i < |t| && t[i] == StatusWrite(Building) ==> i == 2 && t[1] == LockAcquire && acquired
    requires forall i :: 0 <= i < |tail| ==> tail[i] != LockAcquire && tail[i] != StatusWrite(Building)
    ensures var u := t + tail;
      && u[0] == StatusWrite(Queued)
      && (forall i :: 0 <= i < |u| && u[i] == LockAcquire ==> i == 1 && queued)
      && (forall i :: 0 <= i < |u| && u[i] == StatusWrite(Building) ==> i == 2 && u[1] == LockAcquire && acquired)
  {
    var u := t + tail;
    forall i | |t| <= i < |u|
      ensures u[i] != LockAcquire && u[i] != StatusWrite(Building)
    {
      assert u[i] == tail[i - |t|];
    }
  }

  /** A failed queued write aborts the job: no acquire, no build, and a
      failed receipt carrying that write's error. */
  lemma QueuedWriteFailureAborts(job: Job, ttlSeconds: int, world: World, steps: JobSteps, clock: Clock, run: BuildRun)
    requires steps.queuedWrite.Fail?
    ensures var r := RunJob(job, ttlSeconds, world, steps, clock, run);
      && r.trace == [StatusWrite(Queued), ReceiptWrite(Failed)]
      && r.status == Failed && r.error == Some(steps.queuedWrite.error)
      && !r.lockAcquired && r.locks == world.locks
  {
  }

  // ---------------------------------------------------------------------
  // The lock.

  /** For every build result, a job that did not take the lock leaves the
      lock store exactly as it found it: it never deletes another job's lock. */
  lemma UnacquiredLockUntouched(job: Job, ttlSeconds: int, world: World, steps: JobSteps, clock: Clock, run: BuildRun)
    requires !RunJob(job, ttlSeconds, world, steps, clock, run).lockAcquired
    ensures RunJob(job, ttlSeconds, world, steps, clock, run).locks == world.locks
  {
  }

  /** After a job that took the lock and whose receipt and release returned,
      the key is free. */
  lemma CompletedJobFreesLock(job: Job, ttlSeconds: int, world: World, steps: JobSteps, clock: Clock, run: BuildRun)
    requires RunJob(job, ttlSeconds, world, steps, clock, run).lockAcquired
    requires steps.finalWrite.Pass? && steps.release.Pass?
    ensures KeyOf(job) !in RunJob(job, ttlSeconds, world, steps, clock, run).locks
    ensures RunJob(job, ttlSeconds, world, steps, clock, run).escaped.None?
  {
  }

  /** The `finally` block over a `try` block whose lock store is `before`
      with this job's acquire applied exactly when the lock was taken: only
      the job's own key can differ from `before`, and a final write that
      raises leaves the job's record in place. */
  lemma FinallyLockEffects(job: Job, steps: JobSteps, now: Instant, a: Attempt, before: LockStore, ttlSeconds: int)
    requires a.lockAcquired ==> Acquire(before, job, ttlSeconds, now).outcome.Pass?
    requires a.locks == if a.lockAcquired then Acquire(before, job, ttlSeconds, now).store else before
    ensures var locks := Finally(job, steps, a).locks;
      && locks.Keys <= before.Keys + {KeyOf(job)}
      && (forall k :: k in before && k != KeyOf(job) ==> k in locks && locks[k] == before[k])
      && (a.lockAcquired && steps.finalWrite.Fail? ==>
            && KeyOf(job) in locks
            && locks[KeyOf(job)].jobId == job.jobId
            && locks[KeyOf(job)].expiresAt == Some(now + ttlSeconds * MicrosPerSecond))
  {
  }

  /** A record whose expiry lies after `now` refuses every acquire for its key. */
  lemma LiveRecordRefuses(locks: LockStore, next: Job, ttlSeconds: int, now: Instant)
    requires KeyOf(next) in locks && locks[KeyOf(next)].expiresAt.Some?
    requires now < locks[KeyOf(next)].expiresAt.value
    ensures Acquire(locks, next, ttlSeconds, now) == Txn(locks, Fail(LockConflict(next.orgId, next.verticalKey)))
  {
  }

  /** A final write that raises strands the lock: the job's record stays with
      its expiry, and until then a second job for the same org and vertical
      is refused. */
  lemma FailedFinalWriteStrandsLock(job: Job, ttlSeconds: int, world: World, steps: JobSteps, clock: Clock,
                                    run: BuildRun, next: Job, later: Instant)
    requires RunJob(job, ttlSeconds, world, steps, clock, run).lockAcquired && steps.finalWrite.Fail?
    requires KeyOf(next) == KeyOf(job)
    requires later < clock.lockNow + ttlSeconds * MicrosPerSecond
    ensures var locks := RunJob(job, ttlSeconds, world, steps, clock, run).locks;
      && KeyOf(job) in locks
      && locks[KeyOf(job)].jobId == job.jobId
      && locks[KeyOf(job)].expiresAt == Some(clock.lockNow + ttlSeconds * MicrosPerSecond)
      && Acquire(locks, next, ttlSeconds, later).outcome == Fail(LockConflict(next.orgId, next.verticalKey))
  {
    var a := Try(job, ttlSeconds, world, steps, clock, run);
    FinallyLockEffects(job, steps, clock.lockNow, a, world.locks, ttlSeconds);
    LiveRecordRefuses(Finally(job, steps, a).locks, next, ttlSeconds, later);
  }

  /** Only the job's own lock key can change. */
  lemma OtherLocksUntouched(job: Job, ttlSeconds: int, world: World, steps: JobSteps, clock: Clock, run: BuildRun)
    ensures var locks := RunJob(job, ttlSeconds, world, steps, clock, run).locks;
      && locks.Keys <= world.locks.Keys + {KeyOf(job)}
      && forall k :: k in world.locks && k != KeyOf(job) ==> k in locks && locks[k] == world.locks[k]
  {
    FinallyLockEffects(job, steps, clock.lockNow, Try(job, ttlSeconds, world, steps, clock, run), world.locks, ttlSeconds);
  }

  // ---------------------------------------------------------------------
  // The receipt.

  /** The status writes touch only the job's own receipt. */
  lemma StatusWritesTouchOnlyJob(receipts: ReceiptStore, job: Job, started: Instant, queued: bool, building: bool)
    ensures var s := StatusWrites(receipts, job, started, queued, building);
      && s.Keys <= receipts.Keys + {ReceiptKeyOf(job)}
      && (forall k :: k in receipts && k != ReceiptKeyOf(job) ==> k in s && s[k] == receipts[k])
  {
  }

  /** A final write that returns stores the full receipt of the run (status,
      times, duration, deploy time and error) and leaves every other
      receipt as it was. */
  lemma FinalReceiptRecorded(receipts: ReceiptStore, job: Job, steps: JobSteps, clock: Clock, r: JobRun)
    requires steps.finalWrite.Pass?
    ensures var s := JobReceipts(receipts, job, steps, clock, r);
      && s[ReceiptKeyOf(job)] == FinalDoc(job, r.status, clock.started, clock.finished, r.deployedAt, r.error)
      && s.Keys == receipts.Keys + {ReceiptKeyOf(job)}
      && (forall k :: k in receipts && k != ReceiptKeyOf(job) ==> s[k] == receipts[k])
  {
    StatusWritesTouchOnlyJob(receipts, job, clock.started, steps.queuedWrite.Pass?,
                             r.lockAcquired && steps.buildingWrite.Pass?);
  }

  /** A final write that raises leaves the receipt at the last status that
      was written, "building" or "queued", with no error recorded, whatever
      the run's outcome; when no status write returned, the store is as it
      was. */
  lemma FailedFinalWriteLeavesLastStatus(receipts: ReceiptStore, job: Job, steps: JobSteps, clock: Clock, r: JobRun)
    requires steps.finalWrite.Fail?
    requires r.lockAcquired ==> steps.queuedWrite.Pass?
    ensures var s := JobReceipts(receipts, job, steps, clock, r);
      && (steps.queuedWrite.Fail? ==> s == receipts)
      && (steps.queuedWrite.Pass? ==>
            && ReceiptKeyOf(job) in s
            && s[ReceiptKeyOf(job)][StatusField]
               == Text((if r.lockAcquired && steps.buildingWrite.Pass? then Building else Queued).Name())
            && s[ReceiptKeyOf(job)][ErrorField] == Nothing
            && s[ReceiptKeyOf(job)][StartedAtField] == Stamp(clock.started))
      && (forall k :: k in receipts && k != ReceiptKeyOf(job) ==> k in s && s[k] == receipts[k])
  {
    StatusWritesTouchOnlyJob(receipts, job, clock.started, steps.queuedWrite.Pass?,
                             r.lockAcquired && steps.buildingWrite.Pass?);
  }

  /** `handle_build_job` stores the final receipt of its run when the write
      returns: a deployed receipt exactly when every step succeeded. */
  lemma HandledJobRecordsReceipt(job: Job, rt: RuntimeConfig, world: World, steps: JobSteps, clock: Clock)
    requires steps.finalWrite.Pass?
    ensures var h := HandleBuildJob(job, rt, world, steps, clock);
      && h.world.receipts[ReceiptKeyOf(job)]
         == FinalDoc(job, h.run.status, clock.started, clock.finished, h.run.deployedAt, h.run.error)
      && (h.run.status == Deployed <==> AllStepsSucceed(job, rt, world, steps, clock))
  {
    var h := HandleBuildJob(job, rt, world, steps, clock);
    FinalReceiptRecorded(world.receipts, job, steps, clock, h.run);
    DeployedIffAllStepsSucceed(job, rt, world, steps, clock);
  }

  /** When `handle_build_job`'s final write raises after the lock was taken,
      the receipt still reads "building", the lock record stays, and the
      write's exception escapes. */
  lemma HandledFailedFinalWriteLeavesBuilding(job: Job, rt: RuntimeConfig, world: World, steps: JobSteps, clock: Clock)
    requires steps.finalWrite.Fail? && steps.queuedWrite.Pass? && steps.buildingWrite.Pass?
    requires LockFree(world.locks, job, clock.lockNow)
    ensures var h := HandleBuildJob(job, rt, world, steps, clock);
      && h.run.lockAcquired && KeyOf(job) in h.world.locks
      && h.world.receipts[ReceiptKeyOf(job)][StatusField] == Text("building")
      && h.run.escaped == Some(steps.finalWrite.error)
  {
    var h := HandleBuildJob(job, rt, world, steps, clock);
    FailedFinalWriteLeavesLastStatus(world.receipts, job, steps, clock, h.run);
    var a := Try(job, rt.lockTtlSeconds, world, steps, clock, RunBuild(job, rt, steps.build));
    FinallyLockEffects(job, steps, clock.lockNow, a, world.locks, rt.lockTtlSeconds);
  }
}
