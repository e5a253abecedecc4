/**
 The lock manager: TTL-bounded mutual exclusion per (orgId, verticalKey).
 The document-store transaction of `acquire_lock` is one atomic function
 over the whole lock store; `release_lock` is an unconditional delete.
 */
module Locks {
  import opened Outcomes
  import opened Config

  type LockKey = (string, string)

  /** The stored lock document. A record written by another writer may lack
      `expiresAt` (or hold null); `None` stands for both. */
  datatype LockRecord = LockRecord(
    jobId: string,
    exportId: string,
    templateKey: string,
    env: string,
    acquiredAt: Option<Instant>,
    expiresAt: Option<Instant>)

  type LockStore = map<LockKey, LockRecord>

  /** The result of one acquire transaction: the store after it and whether it raised. */
  datatype Txn = Txn(store: LockStore, outcome: Outcome)

  function KeyOf(job: Job): LockKey {
    (job.orgId, job.verticalKey)
  }

  /** A record blocks an acquire at `now` when it never expires or expires strictly later. */
  predicate Blocks(r: LockRecord, now: Instant) {
    r.expiresAt.None? || r.expiresAt.value > now
  }

  function ExpiryOf(now: Instant, ttlSeconds: int): Instant {
    now + ttlSeconds * MicrosPerSecond
  }

  /** `acquire_lock` run at time `now` with the given TTL. */
  function Acquire(store: LockStore, job: Job, ttlSeconds: int, now: Instant): (t: Txn)
    ensures t.outcome.Fail? <==> KeyOf(job) in store && Blocks(store[KeyOf(job)], now)
    ensures t.outcome.Fail? ==> t.outcome.error == LockConflict(job.orgId, job.verticalKey)
    ensures t.outcome.Fail? ==> t.store == store
    ensures t.outcome.Pass? ==>
      && KeyOf(job) in t.store
      && t.store[KeyOf(job)].jobId == job.jobId
      && t.store[KeyOf(job)].exportId == job.exportId
      && t.store[KeyOf(job)].templateKey == job.templateKey
      && t.store[KeyOf(job)].env == job.env
      && t.store[KeyOf(job)].acquiredAt == Some(now)
      && t.store[KeyOf(job)].expiresAt == Some(now + ttlSeconds * MicrosPerSecond)
    ensures t.store.Keys == store.Keys || t.store.Keys == store.Keys + {KeyOf(job)}
    ensures forall k :: k in store && k != KeyOf(job) ==> k in t.store && t.store[k] == store[k]
  {
    var key := KeyOf(job);
    if key in store && Blocks(store[key], now) then
      Txn(store, Fail(LockConflict(job.orgId, job.verticalKey)))
    else
      var record := LockRecord(job.jobId, job.exportId, job.templateKey, job.env,
                               Some(now), Some(ExpiryOf(now, ttlSeconds)));
      Txn(store[key := record], Pass)
  }

  /** `release_lock`: delete the record at the key, whoever holds it. */
  function Release(store: LockStore, key: LockKey): (r: LockStore)
    ensures key !in r
    ensures r.Keys == store.Keys - {key}
    ensures forall k :: k in r ==> r[k] == store[k]
  {
    store - {key}
  }

  /** An expiry equal to `now` (or earlier) does not block, even though the record is present. */
  lemma ExpiredLockDoesNotBlock(store: LockStore, job: Job, ttlSeconds: int, now: Instant)
    requires KeyOf(job) in store
    requires store[KeyOf(job)].expiresAt.Some? && store[KeyOf(job)].expiresAt.value <= now
    ensures Acquire(store, job, ttlSeconds, now).outcome.Pass?
    ensures Acquire(store, job, ttlSeconds, now).store[KeyOf(job)].jobId == job.jobId
  {
  }

  /** A record without an expiry blocks at every time. */
  lemma RecordWithoutExpiryBlocksForever(store: LockStore, job: Job, ttlSeconds: int, now: Instant)
    requires KeyOf(job) in store && store[KeyOf(job)].expiresAt.None?
    ensures Acquire(store, job, ttlSeconds, now) == Txn(store, Fail(LockConflict(job.orgId, job.verticalKey)))
  {
  }

  /** Exclusion: with a positive TTL, once a job holds the key, any acquire
      for the same key before the expiry fails, with no release in between. */
  lemma SecondAcquireBlocked(store: LockStore, first: Job, second: Job, ttlSeconds: int,
                             now: Instant, later: Instant)
    requires ttlSeconds > 0
    requires KeyOf(first) == KeyOf(second)
    requires Acquire(store, first, ttlSeconds, now).outcome.Pass?
    requires now <= later < now + ttlSeconds * MicrosPerSecond
    ensures Acquire(Acquire(store, first, ttlSeconds, now).store, second, ttlSeconds, later).outcome
         == Fail(LockConflict(second.orgId, second.verticalKey))
  {
  }

  /** Release followed by acquire always succeeds: release leaves no residue. */
  lemma ReleaseThenAcquire(store: LockStore, job: Job, ttlSeconds: int, now: Instant)
    ensures Acquire(Release(store, KeyOf(job)), job, ttlSeconds, now).outcome.Pass?
  {
  }

  // ---------------------------------------------------------------------
  // Sequential exclusion over a run of lock operations.

  datatype LockOp =
    | AcquireOp(job: Job, ttlSeconds: int, now: Instant)
    | ReleaseOp(key: LockKey)

  function Apply(store: LockStore, op: LockOp): LockStore {
    match op
    case AcquireOp(job, ttl, now) => Acquire(store, job, ttl, now).store
    case ReleaseOp(key) => Release(store, key)
  }

  function Run(store: LockStore, ops: seq<LockOp>): LockStore
    decreases |ops|
  {
    if ops == [] then store else Run(Apply(store, ops[0]), ops[1..])
  }

  /** `op` leaves the record at `key` alone: it does not release `key`, and
      if it acquires `key` it does so while the record blocks it. */
  predicate Respects(op: LockOp, key: LockKey, holder: LockRecord) {
    match op
    case ReleaseOp(k) => k != key
    case AcquireOp(job, _, now) => KeyOf(job) == key ==> Blocks(holder, now)
  }

  /** A held lock survives every run of operations that never releases its
      key and only contends for it before the holder's expiry. */
  lemma {:induction false} HeldLockSurvives(store: LockStore, key: LockKey, ops: seq<LockOp>)
    requires key in store
    requires forall i :: 0 <= i < |ops| ==> Respects(ops[i], key, store[key])
    ensures key in Run(store, ops) && Run(store, ops)[key] == store[key]
    decreases |ops|
  {
    if ops != [] {
      var next := Apply(store, ops[0]);
      assert Respects(ops[0], key, store[key]);
      assert key in next && next[key] == store[key];
      forall i | 0 <= i < |ops[1..]|
        ensures Respects(ops[1..][i], key, next[key])
      {
        assert ops[1..][i] == ops[i + 1];
      }
      HeldLockSurvives(next, key, ops[1..]);
    }
  }

  /** Without an ownership check, a job whose lock expired and was taken over
      deletes its successor's lock on release, admitting a third job while the
      successor's lock is still live. */
  lemma StaleReleaseFreesSuccessorLock(a: Job, b: Job, c: Job)
    requires KeyOf(a) == KeyOf(b) == KeyOf(c)
    ensures
      var s1 := Acquire(map[], a, 1, 0);
      var s2 := Acquire(s1.store, b, 1, MicrosPerSecond);
      var s3 := Release(s2.store, KeyOf(a));
      var s4 := Acquire(s3, c, 1, MicrosPerSecond + 1);
      && s1.outcome.Pass? && s2.outcome.Pass? && s4.outcome.Pass?
      && Blocks(s2.store[KeyOf(b)], MicrosPerSecond + 1)
  {
  }
}
