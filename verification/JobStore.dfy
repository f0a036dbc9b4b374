/** The durable queue of monitoring jobs of a workspace, and the claim tokens that guard it. */
module JobStore {
  import opened Paths
  import opened FileTree

  datatype Kind = Created | Modified | Moved | Removed | Metadata | Overflow | RescanRequired
  datatype Scope = OneFile | OneDirectory | Unknown

  /** What a look at a file compares later looks with. */
  datatype Sample = Sample(byteSize: nat, modifiedAt: Option<int>)

  datatype Status = Pending | Waiting | Processing | Completed | ToReview | Failed | Excluded

  datatype Stage = Queued | Stability | Cataloging | Content | Semantic | Relationships | Proposal | Search | Finalizing

  datatype Job = Job(
    root: nat, kind: Kind, scope: Scope, before: Option<Path>, after: Option<Path>,
    key: Option<Path>, status: Status, token: Option<nat>, lease: Option<int>,
    sample: Option<Sample>, stableCount: nat, attempts: nat, maximumAttempts: nat,
    debounceReady: int, retryAfter: Option<int>, stage: Stage)

  datatype Event = Event(
    root: nat, kind: Kind, scope: Scope, before: Option<Path>, after: Option<Path>,
    debounceReady: int, maximumAttempts: nat)

  /** What became of a claim. */
  datatype Fate = Held | Released | Overtaken | Expired | Recovered

  /** A claimed job as the cycle sees it: the row at the time of the claim. */
  datatype ClaimedJob = ClaimedJob(id: nat, token: nat, job: Job)

  const LEASE_MS := 60000

  predicate IsOpen(status: Status) {
    status in {Pending, Waiting, Processing}
  }

  /** The path under which events coalesce; an overflow has none. */
  function CoalescingKey(event: Event): Option<Path> {
    if event.kind.Overflow? then None
    else if event.after.Some? then Some(Key(event.after.value))
    else if event.before.Some? then Some(Key(event.before.value))
    else if event.kind.RescanRequired? then Some(["."])
    else None
  }

  /** `append_watch_event_in_transaction` refuses an event without a path, other than an
      overflow or a rescan. */
  predicate Acceptable(event: Event) {
    event.maximumAttempts > 0
    && (event.kind.Overflow? || event.kind.RescanRequired? || event.before.Some? || event.after.Some?)
  }

  function Keep<T>(first: Option<T>, second: Option<T>): Option<T> {
    if first.Some? then first else second
  }

  function Wider(a: Scope, b: Scope): Scope {
    if a.OneDirectory? || b.OneDirectory? then OneDirectory
    else if a.Unknown? || b.Unknown? then Unknown
    else OneFile
  }

  function Max(a: int, b: int): int {
    if a < b then b else a
  }

  function EventBefore(event: Event): Option<Path> {
    if event.kind.Overflow? then None else event.before
  }

  function EventAfter(event: Event): Option<Path> {
    if event.kind.Overflow? then None
    else if event.kind.RescanRequired? && event.before.None? && event.after.None? then Some(["."])
    else event.after
  }

  /** An event meets an open job of its path: the row goes back to the queue, unsampled.
      The claim token stays in the row but guards nothing any more. */
  function Coalesced(job: Job, event: Event): Job {
    job.(kind := event.kind, scope := Wider(job.scope, event.scope),
         before := Keep(job.before, EventBefore(event)), after := Keep(EventAfter(event), job.after),
         debounceReady := Max(job.debounceReady, event.debounceReady), retryAfter := None,
         maximumAttempts := Max(job.maximumAttempts, event.maximumAttempts),
         sample := None, stableCount := 0, status := Pending, stage := Queued)
  }

  function NewJob(event: Event): Job {
    Job(event.root, event.kind, event.scope, EventBefore(event), EventAfter(event),
        CoalescingKey(event), Pending, None, None, None, 0, 0, event.maximumAttempts, event.debounceReady, None, Queued)
  }

  /** One more failed attempt: wait again, or fail for good when the attempts are used up. */
  function Retried(job: Job, retryAfter: int): Job {
    var attempts := job.attempts + 1;
    job.(attempts := if attempts < job.maximumAttempts then attempts else job.maximumAttempts,
         status := if attempts >= job.maximumAttempts then Failed else Waiting,
         retryAfter := Some(retryAfter), token := None, lease := None, stage := Queued)
  }

  predicate Due(job: Job, now: int) {
    (job.status.Pending? || job.status.Waiting?
     || (job.status.Processing? && job.lease.Some? && job.lease.value <= now))
  }

  // ---- what the rows and the claim history say about each other

  type Rows = map<nat, Job>

  /** A row that token `k` guards. */
  ghost predicate Guards(rows: Rows, k: nat, id: nat) {
    id in rows && rows[id].status == Processing && rows[id].token == Some(k)
  }

  /** Each claim is held exactly while its token guards the row of its job. */
  ghost predicate Tracked(rows: Rows, fate: map<nat, Fate>, owner: map<nat, nat>) {
    && owner.Keys == fate.Keys
    && (forall k | k in fate :: fate[k] == Held <==> Guards(rows, k, owner[k]))
    && (forall id | id in rows && rows[id].status == Processing ::
          rows[id].token.Some? && rows[id].token.value in fate && owner[rows[id].token.value] == id)
  }

  /** Attempts are left while a job is open, and its path is the one it coalesces under. */
  ghost predicate RowSound(job: Job) {
    && job.attempts <= job.maximumAttempts && (IsOpen(job.status) ==> job.attempts < job.maximumAttempts)
    && (job.after.Some? ==> job.key == Some(Key(job.after.value)))
  }

  lemma RescanKey()
    ensures Key(["."]) == ["."]
  {
    assert Lower(".") == ".";
  }

  /** An event brings its path with it, or leaves that of the job it joins. */
  lemma EventKeepsPath(job: Job, event: Event)
    requires RowSound(job) && Acceptable(event) && Meets(job, event)
    ensures RowSound(Coalesced(job, event))
  {
    RescanKey();
  }

  lemma NewJobSound(event: Event)
    requires Acceptable(event)
    ensures RowSound(NewJob(event))
  {
    RescanKey();
  }

  ghost predicate SamePlace(a: Job, b: Job) {
    a.root == b.root && a.key == b.key
  }

  /** Two rows that look at one file. */
  ghost predicate SameFile(a: Job, b: Job) {
    a.root == b.root && a.after == b.after
  }

  /** While a claim is held its row stands for the file that was claimed. */
  ghost predicate Intact(rows: Rows, fate: map<nat, Fate>, owner: map<nat, nat>, claimed: map<nat, Job>) {
    && claimed.Keys == fate.Keys
    && forall k | k in fate && fate[k] == Held ::
         k in owner && owner[k] in rows && SameFile(rows[owner[k]], claimed[k])
  }

  /** At most one open job for each root and path. */
  ghost predicate OnePerPath(rows: Rows) {
    forall i, j | i in rows && j in rows && IsOpen(rows[i].status) && IsOpen(rows[j].status)
                  && SamePlace(rows[i], rows[j]) :: i == j
  }

  /** What is settled about a claim stays settled: each claim ends at most once. */
  ghost predicate Settles(before: map<nat, Fate>, after: map<nat, Fate>) {
    forall k | k in before :: k in after && (before[k] != Held ==> after[k] == before[k])
  }

  /** Queueing events may forget samples but records none. */
  ghost predicate SamplesOnlyDrop(before: Rows, after: Rows) {
    forall id | id in after && after[id].sample.Some? ::
      id in before && before[id].sample == after[id].sample && SameFile(before[id], after[id])
  }

  ghost predicate OnlyOvertakes(before: map<nat, Fate>, after: map<nat, Fate>) {
    after.Keys == before.Keys
    && forall k | k in before :: after[k] == before[k] || (before[k] == Held && after[k] == Overtaken)
  }

  /** Claims end only by a release of their own, or by an event for their path. */
  ghost predicate EndsOnly(before: map<nat, Fate>, after: map<nat, Fate>) {
    after.Keys == before.Keys
    && forall k | k in before :: after[k] == before[k] || (before[k] == Held && after[k] in {Released, Overtaken})
  }

  /** A row that is given up, for whatever reason, ends the claim that guards it. */
  lemma RowGivenUp(rows: Rows, fate: map<nat, Fate>, owner: map<nat, nat>, id: nat, job: Job, ending: Fate)
    requires Tracked(rows, fate, owner) && id in rows && job.status != Processing && ending != Held
    ensures rows[id].status == Processing ==>
              rows[id].token.Some? && Tracked(rows[id := job], fate[rows[id].token.value := ending], owner)
    ensures rows[id].status != Processing ==> Tracked(rows[id := job], fate, owner)
  {
  }

  lemma RowClaimed(rows: Rows, fate: map<nat, Fate>, owner: map<nat, nat>, id: nat, job: Job, k: nat)
    requires Tracked(rows, fate, owner) && id in rows && rows[id].status != Processing && k !in fate
    requires job.status == Processing && job.token == Some(k)
    ensures Tracked(rows[id := job], fate[k := Held], owner[k := id])
  {
  }

  /** A row that is given up ends the only claim that could mind. */
  lemma IntactGivenUp(rows: Rows, fate: map<nat, Fate>, owner: map<nat, nat>, claimed: map<nat, Job>, id: nat, job: Job,
                      after: map<nat, Fate>)
    requires Tracked(rows, fate, owner) && Intact(rows, fate, owner, claimed) && id in rows
    requires after.Keys == fate.Keys && forall k | k in after && after[k] == Held :: fate[k] == Held
    requires rows[id].status == Processing && rows[id].token.Some? && rows[id].token.value in after ==>
               after[rows[id].token.value] != Held
    ensures Intact(rows[id := job], after, owner, claimed)
  {
    forall k | k in after && after[k] == Held ensures owner[k] != id && SameFile(rows[owner[k]], claimed[k]) {
      assert Guards(rows, k, owner[k]);
    }
  }

  /** A new row minds no claim. */
  lemma IntactAdded(rows: Rows, fate: map<nat, Fate>, owner: map<nat, nat>, claimed: map<nat, Job>, id: nat, job: Job)
    requires Intact(rows, fate, owner, claimed) && (id in rows ==> SameFile(rows[id], job))
    ensures Intact(rows[id := job], fate, owner, claimed)
  {
  }

  lemma IntactClaimed(rows: Rows, fate: map<nat, Fate>, owner: map<nat, nat>, claimed: map<nat, Job>, id: nat, job: Job, k: nat)
    requires Tracked(rows, fate, owner) && Intact(rows, fate, owner, claimed) && id in rows && k !in fate && SameFile(rows[id], job)
    ensures Intact(rows[id := job], FateAtClaim(rows, fate, id, k), owner[k := id], claimed[k := job])
  {
  }

  /** A new claim ends an expired one on the same row. */
  ghost function FateAtClaim(rows: Rows, fate: map<nat, Fate>, id: nat, k: nat): map<nat, Fate>
    requires id in rows
  {
    (if rows[id].status == Processing && rows[id].token.Some? then fate[rows[id].token.value := Expired] else fate)[k := Held]
  }

  /** An event overtakes the claim on the row it joins. */
  ghost function FateOvertaken(rows: Rows, fate: map<nat, Fate>, id: nat): map<nat, Fate>
    requires id in rows
  {
    if rows[id].status == Processing && rows[id].token.Some? then fate[rows[id].token.value := Overtaken] else fate
  }

  lemma OvertakesOne(rows: Rows, fate: map<nat, Fate>, owner: map<nat, nat>, id: nat)
    requires Tracked(rows, fate, owner) && id in rows
    ensures OnlyOvertakes(fate, FateOvertaken(rows, fate, id))
  {
  }

  lemma CoalescedForgets(rows: Rows, id: nat, event: Event)
    requires id in rows
    ensures SamplesOnlyDrop(rows, rows[id := Coalesced(rows[id], event)])
  {
  }

  lemma ClaimTracked(rows: Rows, fate: map<nat, Fate>, owner: map<nat, nat>, id: nat, job: Job, k: nat)
    requires Tracked(rows, fate, owner) && id in rows && k !in fate
    requires job.status == Processing && job.token == Some(k)
    ensures Tracked(rows[id := job], FateAtClaim(rows, fate, id, k), owner[k := id])
  {
    var idle := rows[id].(status := Waiting);
    RowGivenUp(rows, fate, owner, id, idle, Expired);
    var expired := if rows[id].status == Processing then fate[rows[id].token.value := Expired] else fate;
    RowClaimed(rows[id := idle], expired, owner, id, job, k);
    assert rows[id := idle][id := job] == rows[id := job];
  }

  lemma ClaimSettles(rows: Rows, fate: map<nat, Fate>, owner: map<nat, nat>, id: nat, k: nat)
    requires Tracked(rows, fate, owner) && id in rows && k !in fate
    ensures Settles(fate, FateAtClaim(rows, fate, id, k))
    ensures FateAtClaim(rows, fate, id, k).Keys == fate.Keys + {k}
    ensures forall c | c in fate && fate[c] == Held && owner[c] != id :: FateAtClaim(rows, fate, id, k)[c] == Held
  {
  }

  lemma OnePerPathKept(rows: Rows, id: nat, job: Job)
    requires OnePerPath(rows) && id in rows && SamePlace(rows[id], job)
    requires IsOpen(job.status) ==> IsOpen(rows[id].status)
    ensures OnePerPath(rows[id := job])
  {
    forall i, j | i in rows && j in rows && IsOpen(rows[id := job][i].status) && IsOpen(rows[id := job][j].status)
                  && SamePlace(rows[id := job][i], rows[id := job][j])
      ensures i == j
    {
      assert SamePlace(rows[i], rows[j]);
    }
  }

  lemma OnePerPathAdded(rows: Rows, id: nat, job: Job)
    requires OnePerPath(rows) && id !in rows
    requires forall i | i in rows && IsOpen(rows[i].status) :: !SamePlace(rows[i], job)
    ensures OnePerPath(rows[id := job])
  {
  }

  /** Recovery ends the claims of exactly the rows it retries. */
  function RecoveredRows(rows: Rows, retryAfter: int): (after: Rows)
    ensures after.Keys == rows.Keys
  {
    map id | id in rows ::
      if rows[id].status == Processing then Retried(rows[id], retryAfter) else rows[id]
  }

  ghost function RecoveredFate(fate: map<nat, Fate>): map<nat, Fate> {
    map k | k in fate :: if fate[k] == Held then Recovered else fate[k]
  }

  lemma RecoveryTracked(rows: Rows, fate: map<nat, Fate>, owner: map<nat, nat>, retryAfter: int)
    requires Tracked(rows, fate, owner)
    ensures Tracked(RecoveredRows(rows, retryAfter), RecoveredFate(fate), owner)
  {
    var after := RecoveredRows(rows, retryAfter);
    forall k | k in fate
      ensures RecoveredFate(fate)[k] == Held <==> Guards(after, k, owner[k])
    {
      assert fate[k] == Held <==> Guards(rows, k, owner[k]);
    }
  }

  // ---- the rows that the guarded updates write

  /** `finish_monitoring_job`. */
  function Finished(job: Job, status: Status): Job {
    job.(status := status, token := None, lease := None, stage := Finalizing)
  }

  /** `requeue_monitoring_job_after_cancellation`. */
  function Requeued(job: Job, retryAfter: int): Job {
    job.(status := Waiting, retryAfter := Some(retryAfter), sample := None, stableCount := 0,
         token := None, lease := None, stage := Queued)
  }

  /** `update_monitoring_job_stability_sample`. */
  function Sampled(job: Job, sample: Sample, count: nat, nextCheck: int): Job {
    job.(sample := Some(sample), stableCount := count, debounceReady := nextCheck,
         status := Waiting, token := None, lease := None, stage := Queued)
  }

  class Jobs {
    var rows: Rows
    var nextId: nat
    var nextToken: nat
    ghost var fate: map<nat, Fate>
    ghost var owner: map<nat, nat>
    ghost var claimed: map<nat, Job>

    ghost predicate Valid()
      reads this
    {
      && Tracked(rows, fate, owner) && OnePerPath(rows) && Intact(rows, fate, owner, claimed)
      && (forall k | k in fate :: k < nextToken)
      && (forall id | id in rows :: id < nextId && RowSound(rows[id]))
    }

    constructor ()
      ensures Valid() && rows == map[] && fate == map[]
    {
      rows, nextId, nextToken, fate, owner, claimed := map[], 0, 0, map[], map[], map[];
    }

    /** A guarded update that gives the row up. It succeeds exactly while the claim is held,
        and then the claim is released. */
    method Release(id: nat, token: nat, job: Job) returns (changed: bool)
      requires Valid() && token in fate && owner[token] == id
      requires Guards(rows, token, id) ==> SamePlace(rows[id], job) && job.status != Processing && RowSound(job)
      modifies this`rows, this`fate
      ensures Valid()
      ensures changed <==> old(fate[token] == Held)
      ensures fate == if changed then old(fate)[token := Released] else old(fate)
      ensures rows == if changed then old(rows)[id := job] else old(rows)
    {
      changed := id in rows && rows[id].status == Processing && rows[id].token == Some(token);
      if changed {
        RowGivenUp(rows, fate, owner, id, job, Released);
        IntactGivenUp(rows, fate, owner, claimed, id, job, fate[token := Released]);
        OnePerPathKept(rows, id, job);
        rows, fate := rows[id := job], fate[token := Released];
      }
    }

    /** `claim_monitoring_job_ids`, one job: a queued job, or one whose lease ran out. */
    method Claim(id: nat, now: int) returns (claim: Option<ClaimedJob>)
      requires Valid()
      modifies this
      ensures Valid() && Settles(old(fate), fate)
      ensures claim.Some? <==> old(id in rows && Due(rows[id], now))
      ensures claim.None? ==> unchanged(this)
      ensures claim.Some? ==> Claims(old(rows), rows, claim.value, now)
      ensures claim.Some? ==> claim.value.id == id && claim.value.token !in old(fate)
      ensures claim.Some? ==> fate.Keys == old(fate).Keys + {claim.value.token} && fate[claim.value.token] == Held
      ensures claim.Some? ==> owner == old(owner)[claim.value.token := id]
      ensures claim.Some? ==> claimed == old(claimed)[claim.value.token := claim.value.job]
      ensures forall k | k in old(fate) && old(fate)[k] == Held && old(owner)[k] != id :: fate[k] == Held
    {
      if id !in rows || !Due(rows[id], now) {
        return None;
      }
      var job := rows[id].(status := Processing, token := Some(nextToken), lease := Some(now + LEASE_MS), stage := Stability);
      OnePerPathKept(rows, id, job);
      ClaimTracked(rows, fate, owner, id, job, nextToken);
      ClaimSettles(rows, fate, owner, id, nextToken);
      IntactClaimed(rows, fate, owner, claimed, id, job, nextToken);
      claim := Some(ClaimedJob(id, nextToken, job));
      fate := FateAtClaim(rows, fate, id, nextToken);
      rows, owner, claimed := rows[id := job], owner[nextToken := id], claimed[nextToken := job];
      nextToken := nextToken + 1;
    }

    /** `append_watch_event_in_transaction`: into the open job of the path, or a new one. */
    method Append(event: Event)
      requires Valid() && Acceptable(event)
      modifies this
      ensures Valid() && OnlyOvertakes(old(fate), fate) && owner == old(owner) && claimed == old(claimed)
      ensures SamplesOnlyDrop(old(rows), rows) && Appended(old(rows), rows, event)
    {
      if id :| id in rows && Meets(rows[id], event) {
        JoinJob(id, event);
      } else {
        OpenJob(event);
      }
    }

    /** The event joins an open job, and a claim on it is overtaken. */
    method JoinJob(id: nat, event: Event)
      requires Valid() && Acceptable(event) && id in rows && Meets(rows[id], event)
      modifies this`rows, this`fate
      ensures Valid() && OnlyOvertakes(old(fate), fate)
      ensures SamplesOnlyDrop(old(rows), rows) && Joins(old(rows), rows, event, id)
    {
      var job := Coalesced(rows[id], event);
      EventKeepsPath(rows[id], event);
      RowGivenUp(rows, fate, owner, id, job, Overtaken);
      OnePerPathKept(rows, id, job);
      ghost var after := FateOvertaken(rows, fate, id);
      OvertakesOne(rows, fate, owner, id);
      CoalescedForgets(rows, id, event);
      IntactGivenUp(rows, fate, owner, claimed, id, job, after);
      rows, fate := rows[id := job], after;
    }

    /** The event opens a job of its own. */
    method OpenJob(event: Event)
      requires Valid() && Acceptable(event) && forall i | i in rows :: !Meets(rows[i], event)
      modifies this`rows, this`nextId
      ensures Valid() && SamplesOnlyDrop(old(rows), rows) && Opens(old(rows), rows, event, old(nextId))
    {
      OnePerPathAdded(rows, nextId, NewJob(event));
      NewJobSound(event);
      IntactAdded(rows, fate, owner, claimed, nextId, NewJob(event));
      rows, nextId := rows[nextId := NewJob(event)], nextId + 1;
    }

    /** `append_watch_events_and_coalesce`, event after event: every path has a queued job, and
        the jobs that were closed are as they were. */
    method AppendAll(events: seq<Event>)
      requires Valid() && forall e | e in events :: Acceptable(e)
      modifies this
      ensures Valid() && OnlyOvertakes(old(fate), fate) && owner == old(owner) && claimed == old(claimed)
      ensures SamplesOnlyDrop(old(rows), rows)
      ensures OnlyQueues(old(rows), rows) && forall e | e in events :: QueuedAt(rows, e)
    {
      for i := 0 to |events|
        invariant Valid() && OnlyOvertakes(old(fate), fate) && owner == old(owner) && claimed == old(claimed)
        invariant SamplesOnlyDrop(old(rows), rows)
        invariant OnlyQueues(old(rows), rows) && forall j | 0 <= j < i :: QueuedAt(rows, events[j])
      {
        ghost var before := rows;
        Append(events[i]);
        AppendedQueues(before, rows, events[i]);
        forall j | 0 <= j < i ensures QueuedAt(rows, events[j]) {
          StaysQueued(before, rows, events[i], events[j]);
        }
        OnlyQueuesTogether(old(rows), before, rows);
      }
    }

    /** `finish_monitoring_job`. A lost claim is not an error. */
    method Finish(id: nat, token: nat, status: Status) returns (changed: bool)
      requires Valid() && token in fate && owner[token] == id && status in {Completed, ToReview, Excluded}
      modifies this`rows, this`fate
      ensures Valid() && changed == old(fate[token] == Held)
      ensures fate == if changed then old(fate)[token := Released] else old(fate)
      ensures rows == if changed then old(rows)[id := Finished(old(rows)[id], status)] else old(rows)
    {
      changed := false;
      if id in rows {
        changed := Release(id, token, Finished(rows[id], status));
      }
    }

    /** `requeue_monitoring_job_after_cancellation`. A lost claim is not an error. */
    method Requeue(id: nat, token: nat, retryAfter: int) returns (changed: bool)
      requires Valid() && token in fate && owner[token] == id
      modifies this`rows, this`fate
      ensures Valid() && changed == old(fate[token] == Held)
      ensures fate == if changed then old(fate)[token := Released] else old(fate)
      ensures rows == if changed then old(rows)[id := Requeued(old(rows)[id], retryAfter)] else old(rows)
    {
      changed := false;
      if id in rows {
        changed := Release(id, token, Requeued(rows[id], retryAfter));
      }
    }

    /** `reschedule_monitoring_job`. `None`: the claim was lost, which is an error here. */
    method Reschedule(id: nat, token: nat, retryAfter: int) returns (status: Option<Status>)
      requires Valid() && token in fate && owner[token] == id
      modifies this`rows, this`fate
      ensures Valid() && status.Some? == old(fate[token] == Held)
      ensures fate == if status.Some? then old(fate)[token := Released] else old(fate)
      ensures rows == if status.Some? then old(rows)[id := Retried(old(rows)[id], retryAfter)] else old(rows)
      ensures status.Some? ==> status.value == rows[id].status && status.value in {Status.Failed, Waiting}
    {
      status := None;
      if id in rows {
        var job := Retried(rows[id], retryAfter);
        var changed := Release(id, token, job);
        status := if changed then Some(job.status) else None;
      }
    }

    /** `update_monitoring_job_stability_sample`. A lost claim is an error. */
    method RecordSample(id: nat, token: nat, sample: Sample, count: nat, nextCheck: int) returns (changed: bool)
      requires Valid() && token in fate && owner[token] == id
      modifies this`rows, this`fate
      ensures Valid() && changed == old(fate[token] == Held)
      ensures fate == if changed then old(fate)[token := Released] else old(fate)
      ensures rows == if changed then old(rows)[id := Sampled(old(rows)[id], sample, count, nextCheck)] else old(rows)
    {
      changed := false;
      if id in rows {
        changed := Release(id, token, Sampled(rows[id], sample, count, nextCheck));
      }
    }

    /** `update_monitoring_job_stage`: the claim is kept, its lease renewed. */
    method Advance(id: nat, token: nat, stage: Stage, now: int) returns (changed: bool)
      requires Valid()
      modifies this`rows
      ensures Valid() && changed == old(Guards(rows, token, id))
      ensures rows == if changed then old(rows)[id := old(rows)[id].(stage := stage, lease := Some(now + LEASE_MS))]
                      else old(rows)
    {
      changed := id in rows && rows[id].status == Processing && rows[id].token == Some(token);
      if changed {
        var job := rows[id].(stage := stage, lease := Some(now + LEASE_MS));
        OnePerPathKept(rows, id, job);
        IntactAdded(rows, fate, owner, claimed, id, job);
        rows := rows[id := job];
      }
    }

    /** `recover_processing_jobs_for_workspace`: no job stays claimed. */
    method Recover(retryAfter: int)
      requires Valid()
      modifies this`rows, this`fate
      ensures Valid() && Settles(old(fate), fate) && fate.Keys == old(fate).Keys
      ensures NoneProcessing(rows)
      ensures rows == RecoveredRows(old(rows), retryAfter)
    {
      RecoveryTracked(rows, fate, owner, retryAfter);
      RecoveryKeepsPaths(rows, retryAfter);
      fate := RecoveredFate(fate);
      rows := RecoveredRows(rows, retryAfter);
    }
  }

  ghost predicate Claims(before: Rows, after: Rows, claim: ClaimedJob, now: int) {
    && claim.id in before && after == before[claim.id := claim.job]
    && claim.job == before[claim.id].(status := Processing, token := Some(claim.token), lease := Some(now + LEASE_MS),
                                      stage := Stability)
  }

  /** The open job that an event joins. */
  predicate Meets(job: Job, event: Event) {
    IsOpen(job.status) && job.root == event.root && job.key == CoalescingKey(event)
  }

  ghost predicate Joins(before: Rows, after: Rows, event: Event, id: nat) {
    id in before && Meets(before[id], event) && after == before[id := Coalesced(before[id], event)]
  }

  ghost predicate Opens(before: Rows, after: Rows, event: Event, id: nat) {
    id !in before && after == before[id := NewJob(event)] && forall i | i in before :: !Meets(before[i], event)
  }

  /** An event joins the open job of its path; only without one it opens another. */
  ghost predicate Appended(before: Rows, after: Rows, event: Event) {
    exists id :: Joins(before, after, event, id) || Opens(before, after, event, id)
  }

  predicate WaitsFor(job: Job, event: Event) {
    job.status == Pending && Meets(job, event) && job.sample.None? && job.stableCount == 0
  }

  /** The path of the event has a queued, unsampled job. */
  ghost predicate QueuedAt(rows: Rows, event: Event) {
    exists id :: id in rows && WaitsFor(rows[id], event)
  }

  /** Jobs keep their place, and only open ones change. */
  ghost predicate OnlyQueues(before: Rows, after: Rows) {
    forall id | id in before :: id in after && QueuesOne(before[id], after[id])
  }

  ghost predicate QueuesOne(a: Job, b: Job) {
    a == b || (IsOpen(a.status) && b.status == Pending && SamePlace(a, b))
  }

  lemma AppendedQueues(before: Rows, after: Rows, event: Event)
    requires Appended(before, after, event)
    ensures QueuedAt(after, event) && OnlyQueues(before, after)
  {
    var id :| Joins(before, after, event, id) || Opens(before, after, event, id);
    assert WaitsFor(after[id], event);
    forall i | i in before ensures i in after && QueuesOne(before[i], after[i]) {
      assert i != id ==> after[i] == before[i];
    }
  }

  lemma StaysQueued(before: Rows, after: Rows, event: Event, earlier: Event)
    requires Appended(before, after, event) && QueuedAt(before, earlier)
    ensures QueuedAt(after, earlier)
  {
    var id :| Joins(before, after, event, id) || Opens(before, after, event, id);
    var i :| i in before && WaitsFor(before[i], earlier);
    assert i in after && WaitsFor(after[i], earlier);
  }

  lemma OnlyQueuesTogether(first: Rows, before: Rows, after: Rows)
    requires OnlyQueues(first, before) && OnlyQueues(before, after)
    ensures OnlyQueues(first, after)
  {
    forall id | id in first ensures id in after && QueuesOne(first[id], after[id]) {
      assert QueuesOne(first[id], before[id]) && QueuesOne(before[id], after[id]);
    }
  }

  ghost predicate NoneProcessing(rows: Rows) {
    forall id | id in rows :: rows[id].status != Processing
  }

  lemma NoneHeldNoneProcessing(rows: Rows, fate: map<nat, Fate>, owner: map<nat, nat>)
    requires Tracked(rows, fate, owner)
    ensures NoneProcessing(rows) <==> forall k | k in fate :: fate[k] != Held
  {
    forall k | k in fate && fate[k] == Held ensures !NoneProcessing(rows) {
      assert Guards(rows, k, owner[k]);
    }
  }

  lemma RecoveryKeepsPaths(rows: Rows, retryAfter: int)
    requires OnePerPath(rows)
    ensures OnePerPath(RecoveredRows(rows, retryAfter))
  {
    var after := RecoveredRows(rows, retryAfter);
    forall i, j | i in after && j in after && IsOpen(after[i].status) && IsOpen(after[j].status)
                  && SamePlace(after[i], after[j])
      ensures i == j
    {
      assert SamePlace(rows[i], rows[j]);
    }
  }
}
