/** One bounded monitoring cycle: claim due jobs, screen them, catalog what is stable. */
module MonitoringCycle {
  import opened Paths
  import opened FileTree
  import opened JobStore
  import opened Reconciliation
  import opened Catalog
  import opened StableCatalog

  ghost predicate Sane(world: World) {
    && (forall n: nat, e | e in world.hints(n) :: Acceptable(e))
    && (forall n: nat :: world.scans(n).Scanned? ==> OneScan(world.scans(n).files))
    && (forall n: nat :: world.listings(n).Some? ==> DistinctFiles(world.listings(n).value.files))
  }

  datatype Settings = Settings(roots: set<nat>, exclusions: seq<Exclusion>, limit: nat, automatic: bool)

  datatype Decision = Stable | Wait | Exclude | Review | Retry | Fault

  const RECHECK_MS := 1000
  const MAXIMUM_JOB_BATCH := 500
  const AUTOMATIC_JOB_BATCH := 1

  /** `moved_source_path`. */
  function MovedSource(job: Job): Option<Path> {
    if job.kind == Moved && job.before != job.after then job.before else None
  }

  /** Moves give up their source only when the scan cataloged their destination. */
  ghost predicate DestinationsFirst(batch: seq<Prepared>, seen: seq<Place>) {
    forall p | p in batch && p.missing.Some? && p.claim.job.kind == Moved ::
      p.current.Some? && SeenAt(seen, Key(p.current.value))
  }

  function FilesUnder(files: seq<Entry>, dir: Path): (r: seq<Entry>)
    ensures forall e :: e in r <==> e in files && AtOrUnder(e.path, dir)
    ensures DistinctFiles(files) ==> DistinctFiles(r)
  {
    if files == [] then []
    else
      var rest := FilesUnder(files[1..], dir);
      if AtOrUnder(files[0].path, dir) then [files[0]] + rest else rest
  }

  function AsEvents(root: nat, readyAt: int, gaps: seq<Gap>): (events: seq<Event>)
    ensures |events| == |gaps| && forall i | 0 <= i < |gaps| :: events[i] == AsEvent(root, readyAt, gaps[i])
  {
    seq(|gaps|, i requires 0 <= i < |gaps| => AsEvent(root, readyAt, gaps[i]))
  }

  /** A fault, or a cancellation, between two steps of the world. */
  ghost predicate FaultIn(world: World, from: nat, to: nat) {
    exists n: nat :: from < n <= to && world.faults(n)
  }

  ghost predicate CancelledIn(world: World, from: nat, to: nat) {
    exists n: nat :: from < n <= to && world.cancelled(n)
  }

  // ---- how a claim ends

  /** A claim that was held before and is released now left its job with one of the statuses. */
  ghost predicate LeftAs(before: map<nat, Fate>, fate: map<nat, Fate>, rows: Rows, c: ClaimedJob, statuses: set<Status>) {
    c.token in before && before[c.token] == Held && c.token in fate && fate[c.token] == Released ==>
      c.id in rows && rows[c.id].status in statuses
  }

  ghost predicate FateElsewhere(before: map<nat, Fate>, after: map<nat, Fate>, token: nat) {
    after.Keys == before.Keys
    && forall k | k in before && k != token :: after[k] == before[k] || (before[k] == Held && after[k] == Overtaken)
  }

  ghost predicate RowsElsewhere(before: Rows, after: Rows, id: nat) {
    forall i | i in before && i != id :: i in after && QueuesOne(before[i], after[i])
  }

  /** A status that hints may turn into a queued one is listed together with it. */
  predicate Lasting(statuses: set<Status>) {
    (Waiting in statuses || Processing in statuses) ==> Pending in statuses
  }

  lemma LeftStays(first: map<nat, Fate>, before: map<nat, Fate>, rows: Rows, after: map<nat, Fate>, rows': Rows, c: ClaimedJob,
                  other: ClaimedJob, statuses: set<Status>)
    requires LeftAs(first, before, rows, c, statuses) && Lasting(statuses) && c.id != other.id && c.token != other.token
    requires FateElsewhere(before, after, other.token) && RowsElsewhere(rows, rows', other.id)
    ensures LeftAs(first, after, rows', c, statuses)
  {
    if c.token in first && first[c.token] == Held && c.token in after && after[c.token] == Released {
      assert before[c.token] == Released && QueuesOne(rows[c.id], rows'[c.id]);
    }
  }

  lemma HintsTwice(fate: map<nat, Fate>, rows: Rows, fate': map<nat, Fate>, rows': Rows, fate'': map<nat, Fate>, rows'': Rows)
    requires OnlyOvertakes(fate, fate') && OnlyQueues(rows, rows') && OnlyOvertakes(fate', fate'') && OnlyQueues(rows', rows'')
    ensures OnlyOvertakes(fate, fate'') && OnlyQueues(rows, rows'') && EndsOnly(fate, fate'')
  {
    OnlyQueuesTogether(rows, rows', rows'');
  }

  ghost predicate IsHeld(fate: map<nat, Fate>, c: ClaimedJob) {
    c.token in fate && fate[c.token] == Held
  }

  ghost predicate IsLost(before: map<nat, Fate>, after: map<nat, Fate>, c: ClaimedJob) {
    !IsHeld(after, c) && (IsHeld(before, c) ==> c.token !in after || after[c.token] != Released)
  }

  /** A guarded update of one row, which gives the row up. */
  ghost predicate GivesUpRow(before: Rows, after: Rows, id: nat, statuses: set<Status>) {
    && id in before && id in after && after == before[id := after[id]] && after[id].status in statuses
    && (after[id].sample.Some? ==> after[id].sample == before[id].sample && SameFile(before[id], after[id]))
  }

  /** Hints, and then a guarded update of one row: its claim is released, or nothing happens. */
  lemma OneEnds(fate: map<nat, Fate>, rows: Rows, fate': map<nat, Fate>, rows': Rows, after: map<nat, Fate>, rows'': Rows,
                looks: Looks, c: ClaimedJob, changed: bool, statuses: set<Status>)
    requires OnlyOvertakes(fate, fate') && OnlyQueues(rows, rows') && LooksMatch(rows', looks)
    requires changed ==> c.token in fate' && fate'[c.token] == Held && after == fate'[c.token := Released]
    requires changed ==> GivesUpRow(rows', rows'', c.id, statuses)
    requires !changed ==> after == fate' && rows'' == rows'
    ensures EndsOnly(fate, after) && FateElsewhere(fate, after, c.token) && RowsElsewhere(rows, rows'', c.id)
    ensures LeftAs(fate, after, rows'', c, statuses) && LooksMatch(rows'', looks)
    ensures !changed && !IsHeld(fate', c) ==> IsLost(fate, after, c)
    ensures c.token in fate' && (changed || !IsHeld(fate', c)) ==> HasEnded(after, c)
  {
    forall id | id in rows'' && rows''[id].sample.Some? ensures LookedAt(looks, id, rows''[id]) {
      assert LookedAt(looks, id, rows'[id]);
    }
  }

  /** The row of a held claim still stands for the file that was claimed. */
  lemma HeldIsIntact(rows: Rows, fate: map<nat, Fate>, owner: map<nat, nat>, claimed: map<nat, Job>, c: ClaimedJob)
    requires Intact(rows, fate, owner, claimed) && IsHeld(fate, c) && c.token in owner && owner[c.token] == c.id
    requires c.token in claimed && claimed[c.token] == c.job
    ensures c.id in rows && SameFile(rows[c.id], c.job)
  {
  }

  /** The row has this sample, and no other row changed. */
  ghost predicate SampleSet(before: Rows, after: Rows, c: ClaimedJob, sample: Sample, count: nat) {
    && c.id in before && c.id in after && after == before[c.id := after[c.id]]
    && after[c.id].sample == Some(sample) && after[c.id].stableCount == count && SameFile(after[c.id], c.job)
  }

  lemma LookOfRow(before: Rows, looks: Looks, c: ClaimedJob, g: Glance, count: nat, after: Rows)
    requires LooksMatch(before, looks) && SampleSet(before, after, c, g.sample, count)
    requires c.job.root == g.root && c.job.after == Some(g.path)
    ensures LooksMatch(after, Noted(looks, c.id, g))
  {
    LookRecorded(before, looks, c.id, g, after);
  }

  lemma LookEnds(fate: map<nat, Fate>, rows: Rows, fate': map<nat, Fate>, rows': Rows, c: ClaimedJob)
    requires c.token in fate && fate[c.token] == Held && fate' == fate[c.token := Released]
    requires c.id in rows' && rows'[c.id].status == Waiting
    ensures EndsOnly(fate, fate') && LeftAs(fate, fate', rows', c, {Waiting}) && HasEnded(fate', c) && !IsLost(fate, fate', c)
  {
  }

  /** Hints before a claim ends do not change how it ends. */
  lemma LaterEnd(first: map<nat, Fate>, before: map<nat, Fate>, after: map<nat, Fate>, rows: Rows, c: ClaimedJob,
                 statuses: set<Status>)
    requires OnlyOvertakes(first, before) && EndsOnly(before, after)
    ensures LeftAs(before, after, rows, c, statuses) ==> LeftAs(first, after, rows, c, statuses)
    ensures IsLost(before, after, c) ==> IsLost(first, after, c)
    ensures EndsOnly(first, after)
  {
  }

  /** How the jobs of a batch end together. */
  datatype BatchEnd = Requeues | Retries | Completes(seen: seq<Place>)

  predicate IsCataloged(p: Prepared, seen: seq<Place>) {
    p.current.None? || SeenAt(seen, Key(p.current.value))
  }

  function EndStatuses(end: BatchEnd, p: Prepared): (statuses: set<Status>)
    ensures Lasting(statuses)
  {
    match end
    case Requeues => {Waiting, Pending}
    case Retries => RETRIED + {Pending}
    case Completes(seen) => if IsCataloged(p, seen) then {Completed} else {ToReview}
  }

  /** Since `first`, the first `n` jobs of the batch were left as they should, the others were
      not released. */
  ghost predicate Ending(first: map<nat, Fate>, fate: map<nat, Fate>, rows: Rows, batch: seq<Prepared>, n: nat, end: BatchEnd) {
    && (forall j | 0 <= j < |batch| && j < n :: LeftAs(first, fate, rows, batch[j].claim, EndStatuses(end, batch[j])))
    && (forall j | n <= j < |batch| :: LeftAs(first, fate, rows, batch[j].claim, {}))
  }

  ghost predicate ClaimsApart(batch: seq<Prepared>) {
    forall i, j | 0 <= i < j < |batch| :: batch[i].claim.id != batch[j].claim.id
  }

  ghost predicate TokensApart(batch: seq<Prepared>) {
    forall i, j | 0 <= i < j < |batch| :: batch[i].claim.token != batch[j].claim.token
  }

  lemma OwnersApart(owner: map<nat, nat>, batch: seq<Prepared>)
    requires ClaimsApart(batch)
    requires forall p | p in batch :: p.claim.token in owner && owner[p.claim.token] == p.claim.id
    ensures TokensApart(batch)
  {
    forall i, j | 0 <= i < j < |batch| ensures batch[i].claim.token != batch[j].claim.token {
      assert batch[i] in batch && batch[j] in batch;
    }
  }

  /** Hints leave the row of a claim that is still held as it is. */
  lemma HeldAreUntouched(before: Rows, rows: Rows, fate: map<nat, Fate>, owner: map<nat, nat>, batch: seq<Prepared>)
    requires OnlyQueues(before, rows) && Tracked(rows, fate, owner)
    requires forall p | p in batch :: p.claim.token in owner && owner[p.claim.token] == p.claim.id
    ensures forall p | p in batch && fate[p.claim.token] == Held && p.claim.id in before :: rows[p.claim.id] == before[p.claim.id]
  {
    forall p | p in batch && fate[p.claim.token] == Held && p.claim.id in before ensures rows[p.claim.id] == before[p.claim.id] {
      assert Guards(rows, p.claim.token, p.claim.id) && QueuesOne(before[p.claim.id], rows[p.claim.id]);
    }
  }

  /** The claims of the first `n` jobs that are still held are at this stage. */
  ghost predicate StagedTo(fate: map<nat, Fate>, rows: Rows, batch: seq<Prepared>, n: nat, stage: Stage) {
    forall j | 0 <= j < |batch| && j < n && IsHeld(fate, batch[j].claim) ::
      batch[j].claim.id in rows && rows[batch[j].claim.id].stage == stage
  }

  lemma StageStays(before: map<nat, Fate>, rows: Rows, after: map<nat, Fate>, rows': Rows, batch: seq<Prepared>, n: nat,
                   stage: Stage)
    requires StagedTo(before, rows, batch, n, stage) && OnlyOvertakes(before, after) && OnlyQueues(rows, rows')
    requires forall p | p in batch && p.claim.token in after && after[p.claim.token] == Held && p.claim.id in rows ::
               rows'[p.claim.id] == rows[p.claim.id]
    ensures StagedTo(after, rows', batch, n, stage)
  {
    forall j | 0 <= j < |batch| && j < n && IsHeld(after, batch[j].claim)
      ensures batch[j].claim.id in rows' && rows'[batch[j].claim.id].stage == stage
    {
      assert batch[j] in batch && IsHeld(before, batch[j].claim);
    }
  }

  lemma StageNext(fate: map<nat, Fate>, rows: Rows, rows': Rows, batch: seq<Prepared>, n: nat, stage: Stage)
    requires n < |batch| && StagedTo(fate, rows, batch, n, stage) && ClaimsApart(batch) && batch[n].claim.id in rows
    requires rows'.Keys == rows.Keys && rows'[batch[n].claim.id].stage == stage
    requires forall id | id in rows && id != batch[n].claim.id :: rows'[id] == rows[id]
    ensures StagedTo(fate, rows', batch, n + 1, stage)
  {
  }

  lemma SampleStays(rows: Rows, rows': Rows, id: nat, looks: Looks)
    requires LooksMatch(rows, looks) && id in rows && rows'.Keys == rows.Keys && rows'[id].sample == rows[id].sample
    requires SameFile(rows[id], rows'[id])
    requires forall i | i in rows && i != id :: rows'[i] == rows[i]
    ensures LooksMatch(rows', looks)
  {
    forall i | i in rows' && rows'[i].sample.Some? ensures LookedAt(looks, i, rows'[i]) {
      assert LookedAt(looks, i, rows[i]);
    }
  }

  lemma NoneEnded(first: map<nat, Fate>, fate: map<nat, Fate>, rows: Rows, batch: seq<Prepared>, end: BatchEnd)
    requires OnlyOvertakes(first, fate)
    ensures Ending(first, fate, rows, batch, 0, end)
  {
  }

  lemma EndingSince(first: map<nat, Fate>, before: map<nat, Fate>, after: map<nat, Fate>, rows: Rows, batch: seq<Prepared>,
                    end: BatchEnd)
    requires OnlyOvertakes(first, before) && Ending(before, after, rows, batch, |batch|, end) && EndsOnly(before, after)
    ensures Ending(first, after, rows, batch, |batch|, end)
  {
    forall j | 0 <= j < |batch| ensures LeftAs(first, after, rows, batch[j].claim, EndStatuses(end, batch[j])) {
      assert LeftAs(before, after, rows, batch[j].claim, EndStatuses(end, batch[j]));
    }
  }

  ghost predicate HasEnded(fate: map<nat, Fate>, c: ClaimedJob) {
    c.token in fate && fate[c.token] != Held
  }

  ghost predicate FirstEnded(batch: seq<Prepared>, n: nat, fate: map<nat, Fate>) {
    forall j | 0 <= j < |batch| && j < n :: HasEnded(fate, batch[j].claim)
  }

  lemma AllStayEnded(batch: seq<Prepared>, n: nat, before: map<nat, Fate>, after: map<nat, Fate>)
    requires n < |batch| && FirstEnded(batch, n, before) && EndsOnly(before, after) && HasEnded(after, batch[n].claim)
    ensures FirstEnded(batch, n + 1, after)
  {
  }

  lemma ClosedOne(batch: seq<Prepared>, n: nat, end: BatchEnd, first: map<nat, Fate>, before: map<nat, Fate>, rows: Rows,
                  after: map<nat, Fate>, rows': Rows)
    requires n < |batch| && Ending(first, before, rows, batch, n, end) && ClaimsApart(batch) && TokensApart(batch)
    requires EndsOnly(first, before) && EndsOnly(before, after) && FateElsewhere(before, after, batch[n].claim.token)
    requires RowsElsewhere(rows, rows', batch[n].claim.id)
    requires LeftAs(before, after, rows', batch[n].claim, EndStatuses(end, batch[n]))
    ensures Ending(first, after, rows', batch, n + 1, end) && EndsOnly(first, after)
  {
    forall j | 0 <= j < |batch| && j < n
      ensures LeftAs(first, after, rows', batch[j].claim, EndStatuses(end, batch[j]))
    {
      LeftStays(first, before, rows, after, rows', batch[j].claim, batch[n].claim, EndStatuses(end, batch[j]));
    }
    forall j | n + 1 <= j < |batch| ensures LeftAs(first, after, rows', batch[j].claim, {}) {
      LeftStays(first, before, rows, after, rows', batch[j].claim, batch[n].claim, {});
    }
    assert LeftAs(first, before, rows, batch[n].claim, {});
    assert LeftAs(first, after, rows', batch[n].claim, EndStatuses(end, batch[n]));
  }

  // ---- what screening decides

  predicate IsUnsafe(look: Look) {
    look.RemoteOrLink? || (look.Seen? && (look.hiddenOrRemote || look.tooLarge))
  }

  predicate IsUnreachable(look: Look) {
    look.Unreadable? || (look.Seen? && !look.hiddenOrRemote && !look.tooLarge && !look.readable)
  }

  lemma RecoveryKeepsLooks(rows: Rows, retryAfter: int, looks: Looks)
    requires LooksMatch(rows, looks)
    ensures LooksMatch(RecoveredRows(rows, retryAfter), looks)
  {
    forall id | id in rows && rows[id].sample.Some? ensures LookedAt(looks, id, RecoveredRows(rows, retryAfter)[id]) {
      assert LookedAt(looks, id, rows[id]);
    }
  }

  /** What a look at the path of a job says at this step. */
  ghost function LookFor(world: World, job: Job, at: nat): Look {
    if job.after.Some? then world.looks(at, job.root, job.after.value) else NotAFile
  }

  /** A readable, safe file looks as the sample of the job says, and did so before. */
  predicate LooksStable(job: Job, look: Look) {
    look.Seen? && !IsUnsafe(look) && look.readable && job.sample == Some(look.sample) && job.stableCount >= 1
  }

  datatype Screening = Goes(current: Option<Path>, missing: Option<Path>) | Ends(statuses: set<Status>)

  const RETRIED: set<Status> := {Waiting, Status.Failed}

  /** What becomes of a job that stands for one file. */
  function FileScreening(job: Job, exclusions: seq<Exclusion>, look: Look): Screening {
    var effective := Keep(job.after, job.before);
    if effective.Some? && IsExcluded(effective.value, exclusions) then Ends({Excluded})
    else if job.kind == Removed then Goes(None, job.before)
    else if job.after.None? then Ends({ToReview})
    else StableScreening(job, look)
  }

  function StableScreening(job: Job, look: Look): Screening {
    if IsUnsafe(look) then Ends({ToReview})
    else if look.NotAFile? then Ends({Excluded})
    else if IsUnreachable(look) then Ends(RETRIED)
    else if LooksStable(job, look) then Goes(job.after, MovedSource(job))
    else Ends({Waiting})
  }

  /** Screening did what it decided. */
  ghost predicate ScreenedAs(verdict: Screening, c: ClaimedJob, ok: bool, kept: Option<Prepared>, before: map<nat, Fate>,
                             after: map<nat, Fate>, rows: Rows) {
    match verdict
    case Goes(current, missing) => ok && kept == Some(Prepared(c, current, missing)) && OnlyOvertakes(before, after)
    case Ends(statuses) => kept.None? && LeftAs(before, after, rows, c, statuses)
  }

  predicate IsWhole(job: Job) {
    job.kind in {Overflow, RescanRequired}
  }

  /** What becomes of a job of an enabled root. */
  ghost function KnownScreening(world: World, settings: Settings, job: Job, at: nat): Screening {
    if IsGapJob(job) then Ends(RETRIED + {Completed}) else FileScreening(job, settings.exclusions, LookFor(world, job, at))
  }

  /** What becomes of a job, from the poll at this step on. */
  ghost function ScreeningAt(world: World, settings: Settings, job: Job, at: nat): Screening {
    if world.cancelled(at) then Ends({Waiting})
    else if job.root !in settings.roots then Ends(RETRIED)
    else KnownScreening(world, settings, job, at + 1)
  }

  lemma LaterScreened(verdict: Screening, c: ClaimedJob, ok: bool, kept: Option<Prepared>, first: map<nat, Fate>,
                      before: map<nat, Fate>, after: map<nat, Fate>, rows: Rows)
    requires OnlyOvertakes(first, before) && EndsOnly(before, after) && ScreenedAs(verdict, c, ok, kept, before, after, rows)
    ensures ScreenedAs(verdict, c, ok, kept, first, after, rows) && EndsOnly(first, after)
    ensures IsLost(before, after, c) ==> IsLost(first, after, c)
  {
    if verdict.Ends? {
      LaterEnd(first, before, after, rows, c, verdict.statuses);
    }
  }

  /** A job that stands for more than one file. */
  predicate IsGapJob(job: Job) {
    IsWhole(job) || job.scope != OneFile
  }

  /** How a job that stands for more than one file ends. */
  datatype GapEnding = GapRetried | GapWaiting | GapDone

  /** What becomes of a job whose reconciliation was done or not, cancelled, or bounded. */
  function EndOfGap(done: bool, cancelled: bool, bounded: bool): GapEnding {
    if !done then GapRetried else if cancelled then GapWaiting else if bounded then GapRetried else GapDone
  }

  function GapStatuses(ending: GapEnding): (statuses: set<Status>)
    ensures statuses <= RETRIED + {Completed}
    ensures Completed in statuses <==> ending == GapDone
  {
    match ending
    case GapRetried => RETRIED
    case GapWaiting => {Waiting}
    case GapDone => {Completed}
  }

  /** The reconciliation of a directory, not of its root. */
  predicate ByDirectory(job: Job) {
    !IsWhole(job) && job.scope == OneDirectory && (job.before.Some? || job.after.Some?)
  }

  /** What the comparison for a job, at one step of the world, has to go by. */
  ghost function ListingFor(world: World, job: Job, at: nat): Option<Listing> {
    if ByDirectory(job) then Below(world.listings(at), job.after) else world.listings(at)
  }

  /** The comparison at this step saw a cancellation and reports nothing. */
  ghost predicate InterruptedAt(world: World, job: Job, at: nat) {
    var listing := ListingFor(world, job, at);
    listing.Some? && (listing.value.cancelled || world.cancelled(at))
  }

  /** The comparison of a whole root at this step is over incomplete data. */
  ghost predicate BoundedAt(world: World, job: Job, at: nat, places: Places, limit: nat) {
    var listing := ListingFor(world, job, at);
    && !ByDirectory(job) && listing.Some? && !InterruptedAt(world, job, at)
    && (listing.value.truncated || listing.value.issues > 0 || |places| >= limit)
  }

  /** How a comparison without a fault ends its job, if it is made at step `at`: what counts are
      the poll after it and, for a whole root, the overflow mark (`marked`: as it was before). */
  ghost function GapEnd(world: World, job: Job, at: nat, places: Places, limit: nat, marked: bool): GapEnding {
    EndOfGap(true, world.cancelled(at + 1),
      IsWhole(job) && (BoundedAt(world, job, at, places, limit) || (InterruptedAt(world, job, at) && marked)))
  }

  lemma GapEndIs(world: World, job: Job, at: nat, places: Places, limit: nat, before: bool, after: bool, done: bool, outcome: Outcome)
    requires done ==> (outcome == Interrupted <==> InterruptedAt(world, job, at))
    requires done ==> (outcome == Bounded <==> BoundedAt(world, job, at, places, limit))
    requires done && outcome == Interrupted ==> before == after
    requires done && !ByDirectory(job) && outcome != Interrupted ==> (after <==> outcome == Bounded)
    ensures EndOfGap(done, world.cancelled(at + 1), IsWhole(job) && after)
         == if done then GapEnd(world, job, at, places, limit, before) else GapRetried
  {
  }

  /** A job is completed only by a comparison that was neither interrupted nor bounded. */
  ghost predicate CompletesSoundly(world: World, job: Job, at: nat, places: Places, limit: nat, marked: bool) {
    GapEnd(world, job, at, places, limit, marked) == GapDone ==>
      !InterruptedAt(world, job, at) && !BoundedAt(world, job, at, places, limit)
  }

  /** A cancellation seen at a step is not withdrawn by the next one. */
  ghost predicate NotWithdrawn(world: World, at: nat) {
    world.listings(at).Some? && (world.listings(at).value.cancelled || world.cancelled(at)) ==> world.cancelled(at + 1)
  }

  ghost predicate SoundForJob(job: Job) {
    forall world: World, at: nat, places: Places, limit: nat, marked: bool | NotWithdrawn(world, at) ::
      CompletesSoundly(world, job, at, places, limit, marked)
  }

  /** With a lasting cancellation, completion is sound for whole roots and for directories, and
      for no other job. */
  lemma SoundForJobExactly(job: Job)
    ensures SoundForJob(job) <==> IsWhole(job) || ByDirectory(job)
  {
    if !IsWhole(job) && !ByDirectory(job) {
      BoundedYetCompleted(job);
      assert !CompletesSoundly(TRUNCATED, job, 1, map[], 1, false);
    }
  }

  ghost predicate SoundAt(world: World, at: nat) {
    forall job: Job, places: Places, limit: nat, marked: bool | IsWhole(job) || ByDirectory(job) ::
      CompletesSoundly(world, job, at, places, limit, marked)
  }

  /** For those jobs, completion is sound exactly when the cancellation that interrupted the
      comparison still stands at the poll after it. */
  lemma SoundAtExactly(world: World, at: nat)
    ensures SoundAt(world, at) <==> NotWithdrawn(world, at)
  {
    if !NotWithdrawn(world, at) {
      assert !CompletesSoundly(world, RESCAN, at, map[], 0, false);
    }
  }

  const RESCAN := Job(0, RescanRequired, Unknown, None, Some(["."]), Some(["."]), Processing, Some(0), Some(0), None, 0, 0, 8, 0,
                      None, Stability)
  const NO_EVENTS: nat -> seq<Event> := _ => []
  const NO_LOOKS: (nat, nat, Path) -> Look := (at, root, path) => NotAFile
  const NEVER: nat -> bool := _ => false

  /** A world without faults, whose listings stop at a limit. */
  const TRUNCATED := World(NEVER, NEVER, NO_EVENTS, NO_LOOKS, _ => ScanFailed, _ => Some(Listing([], true, 0, false)))

  /** A job of unknown scope: its root comparison was bounded, and it is completed. */
  lemma BoundedYetCompleted(job: Job)
    requires !IsWhole(job) && !ByDirectory(job)
    ensures Sane(TRUNCATED) && NotWithdrawn(TRUNCATED, 1) && BoundedAt(TRUNCATED, job, 1, map[], 1)
    ensures GapEnd(TRUNCATED, job, 1, map[], 1, false) == GapDone
  {
  }

  /** A world in which the user cancels during the comparison and takes it back. */
  const WITHDRAWN := World(n => n == 1, NEVER, NO_EVENTS, NO_LOOKS, _ => ScanFailed, _ => Some(Listing([], false, 0, true)))

  /** A rescan whose comparison was interrupted and reported nothing, and it is completed. */
  lemma InterruptedYetCompleted()
    ensures Sane(WITHDRAWN) && InterruptedAt(WITHDRAWN, RESCAN, 1)
    ensures GapEnd(WITHDRAWN, RESCAN, 1, map[], 1, false) == GapDone
  {
  }

  ghost predicate GapKinds(gaps: seq<Gap>) {
    forall g | g in gaps :: g.kind in {Created, Modified, Removed}
  }

  lemma ReportedKinds(files: seq<Entry>, rows: seq<Row>, complete: bool, exclusions: seq<Exclusion>, gaps: seq<Gap>)
    requires Reports(files, rows, complete, exclusions, gaps)
    ensures GapKinds(gaps)
  {
    forall g | g in gaps ensures g.kind in {Created, Modified, Removed} {
      assert IsGap(files, rows, complete, exclusions, g);
    }
  }

  /** At most `limit` rows of a catalog, and all of them when there are fewer. */
  ghost predicate IsSnapshot(places: Places, limit: nat, rows: seq<Row>) {
    && DistinctRows(rows) && |rows| == (if |places| < limit then |places| else limit)
    && (forall r | r in rows :: Key(r.path) in places && places[Key(r.path)].sample == r.sample)
    && (|rows| < limit ==> forall k | k in places :: CatalogedAs(rows, k, places[k].sample))
  }

  /** What a root reconciliation finds. */
  ghost predicate RootCompared(places: Places, listing: Listing, cancelled: bool, settings: Settings, gaps: seq<Gap>,
                               outcome: Outcome)
  {
    exists rows :: IsSnapshot(places, settings.limit, rows)
      && RootFindings(listing, cancelled, rows, settings.limit, settings.exclusions, gaps, outcome)
  }

  ghost predicate RootFindings(listing: Listing, cancelled: bool, rows: seq<Row>, limit: nat, exclusions: seq<Exclusion>,
                               gaps: seq<Gap>, outcome: Outcome)
  {
    && (outcome == Interrupted <==> listing.cancelled || cancelled)
    && (if outcome == Interrupted then gaps == []
        else Reports(listing.files, rows, Complete(listing, rows, limit), exclusions, gaps))
    && (outcome == Bounded <==> outcome != Interrupted && !Complete(listing, rows, limit))
  }

  /** What a directory reconciliation finds. */
  ghost predicate DirectoryCompared(places: Places, before: Option<Path>, after: Option<Path>, listing: Option<Listing>,
                                    cancelled: bool, settings: Settings, gaps: seq<Gap>, outcome: Outcome)
  {
    exists rows :: IsSnapshot(places, settings.limit, rows)
      && DirectoryFindings(before, after, listing, cancelled, rows, settings.limit, settings.exclusions, gaps, outcome)
  }

  ghost predicate DirectoryFindings(before: Option<Path>, after: Option<Path>, listing: Option<Listing>, cancelled: bool,
                                    rows: seq<Row>, limit: nat, exclusions: seq<Exclusion>, gaps: seq<Gap>, outcome: Outcome)
  {
    && (outcome == Interrupted <==> listing.Some? && (listing.value.cancelled || cancelled))
    && outcome in {Interrupted, Changed, Refused}
    && (outcome == Refused <==> outcome != Interrupted && !CompleteBelow(listing, rows, limit))
    && (if outcome in {Interrupted, Refused} then gaps == []
        else Reports(FilesBelow(listing), Scoped(rows, before, after), true, exclusions, gaps))
  }

  lemma RootOutcome(places: Places, listing: Listing, cancelled: bool, settings: Settings, gaps: seq<Gap>, outcome: Outcome)
    requires RootCompared(places, listing, cancelled, settings, gaps, outcome)
    ensures outcome == Interrupted <==> listing.cancelled || cancelled
    ensures outcome == Bounded <==>
              outcome != Interrupted && (listing.truncated || listing.issues > 0 || |places| >= settings.limit)
  {
    var rows :| IsSnapshot(places, settings.limit, rows)
                && RootFindings(listing, cancelled, rows, settings.limit, settings.exclusions, gaps, outcome);
  }

  lemma DirectoryOutcome(places: Places, before: Option<Path>, after: Option<Path>, listing: Option<Listing>, cancelled: bool,
                         settings: Settings, gaps: seq<Gap>, outcome: Outcome)
    requires DirectoryCompared(places, before, after, listing, cancelled, settings, gaps, outcome)
    ensures outcome == Interrupted <==> listing.Some? && (listing.value.cancelled || cancelled)
    ensures outcome in {Interrupted, Changed, Refused}
  {
    var rows :| IsSnapshot(places, settings.limit, rows)
                && DirectoryFindings(before, after, listing, cancelled, rows, settings.limit, settings.exclusions, gaps, outcome);
  }

  /** Every gap that was found waits in the queue. */
  ghost predicate GapsQueued(rows: Rows, root: nat, now: int, gaps: seq<Gap>) {
    forall g | g in gaps :: QueuedAt(rows, AsEvent(root, now, g))
  }

  lemma EventsQueueGaps(rows: Rows, root: nat, now: int, gaps: seq<Gap>)
    requires forall e | e in AsEvents(root, now, gaps) :: QueuedAt(rows, e)
    ensures GapsQueued(rows, root, now, gaps)
  {
    var events := AsEvents(root, now, gaps);
    forall g | g in gaps ensures QueuedAt(rows, AsEvent(root, now, g)) {
      var i :| 0 <= i < |gaps| && gaps[i] == g;
      assert events[i] in events;
    }
  }

  /** The listing of a directory that a root listing contains. */
  function Below(listing: Option<Listing>, after: Option<Path>): Option<Listing> {
    if after.Some? && listing.Some? then Some(listing.value.(files := FilesUnder(listing.value.files, after.value))) else None
  }

  /** `catalog_snapshot_for_root`: at most `limit` rows. */
  method Snapshot(places: Places, limit: nat) returns (rows: seq<Row>)
    requires PlacesSound(places)
    ensures IsSnapshot(places, limit, rows)
  {
    rows := [];
    var keys := places.Keys;
    while keys != {} && |rows| < limit
      invariant keys <= places.Keys && DistinctRows(rows) && |rows| <= limit && |rows| + |keys| == |places|
      invariant forall r | r in rows :: Key(r.path) in places && Key(r.path) !in keys && places[Key(r.path)].sample == r.sample
      invariant forall k | k in places && k !in keys :: CatalogedAs(rows, k, places[k].sample)
      decreases keys
    {
      var key :| key in keys;
      var row := Row(places[key].path, places[key].sample);
      forall k | k in places && k !in keys - {key} ensures CatalogedAs(rows + [row], k, places[k].sample) {
        if k == key {
          assert row in rows + [row];
        } else {
          var r :| r in rows && Key(r.path) == k && r.sample == places[k].sample;
          assert r in rows + [row];
        }
      }
      keys, rows := keys - {key}, rows + [row];
    }
  }

  /** What a batch may do to the catalog of its root, at any exit: nothing, or the scan and
      then some of the paths given up, moves only after their destination. */
  ghost predicate CatalogedInOrder(before: map<nat, Places>, after: map<nat, Places>, root: nat, batch: seq<Prepared>,
                                   stored: Option<seq<Place>>, marked: nat, looks: Looks) {
    && (stored.None? ==> after == before)
    && (stored.Some? ==>
          && OneScan(stored.value) && NoDrift(batch, stored.value) && StoredStably(root, batch, stored.value, looks)
          && marked <= |batch| && DestinationsFirst(batch[..marked], stored.value)
          && after == before[root := AfterScan(PlacesOf(before, root), stored.value, batch[..marked])])
  }

  lemma ScanThenGiveUp(before: map<nat, Places>, scanned: map<nat, Places>, after: map<nat, Places>, root: nat,
                       batch: seq<Prepared>, seen: seq<Place>, marked: nat, looks: Looks)
    requires OneScan(seen) && NoDrift(batch, seen) && StoredStably(root, batch, seen, looks)
    requires marked <= |batch| && DestinationsFirst(batch[..marked], seen)
    requires scanned == before[root := ObservedAll(PlacesOf(before, root), seen)]
    requires after == scanned[root := Missed(scanned[root], batch[..marked])]
    ensures CatalogedInOrder(before, after, root, batch, Some(seen), marked, looks)
  {
    assert after == before[root := AfterScan(PlacesOf(before, root), seen, batch[..marked])];
  }

  class Monitor {
    const jobs: Jobs
    const world: World
    const settings: Settings
    var catalog: map<nat, Places>
    var overflowed: set<nat>
    var tick: nat
    ghost var looks: Looks
    ghost var history: seq<Change>

    ghost predicate Valid()
      reads this, jobs
    {
      && jobs.Valid() && Sane(world) && LooksMatch(jobs.rows, looks)
      && LooksReal(looks, world, tick) && CatalogKept(catalog, history, world, tick)
    }

    /** Every step keeps the invariant, and ends claims at most once. */
    twostate predicate Steady()
      reads this, jobs
    {
      Valid() && EndsOnly(old(jobs.fate), jobs.fate) && jobs.owner == old(jobs.owner) && jobs.claimed == old(jobs.claimed)
    }

    ghost predicate Claimed(c: ClaimedJob)
      reads this, jobs
    {
      c.token in jobs.fate && c.token in jobs.owner && jobs.owner[c.token] == c.id
    }

    /** The job as it was when this claim was made. */
    ghost predicate Recorded(c: ClaimedJob)
      reads this, jobs
    {
      c.token in jobs.claimed && jobs.claimed[c.token] == c.job
    }

    ghost predicate Ended(c: ClaimedJob)
      reads this, jobs
    {
      HasEnded(jobs.fate, c)
    }

    constructor (world: World, settings: Settings)
      requires Sane(world)
      ensures Valid() && fresh(jobs) && jobs.rows == map[] && catalog == map[] && history == []
    {
      jobs := new Jobs();
      this.world, this.settings, catalog, overflowed, tick, looks, history := world, settings, map[], {}, 0, map[], [];
    }

    ghost predicate Holds(c: ClaimedJob)
      reads jobs
    {
      IsHeld(jobs.fate, c)
    }

    /** If the claim was released since, its job was left with one of these statuses. */
    twostate predicate Leaves(c: ClaimedJob, statuses: set<Status>)
      reads this, jobs
    {
      LeftAs(old(jobs.fate), jobs.fate, jobs.rows, c, statuses)
    }

    /** The claim is gone, and not by a release since. */
    twostate predicate Lost(c: ClaimedJob)
      reads this, jobs
    {
      IsLost(old(jobs.fate), jobs.fate, c)
    }

    /** Nothing but hints happened to other jobs and claims. */
    twostate predicate Elsewhere(c: ClaimedJob)
      reads this, jobs
    {
      FateElsewhere(old(jobs.fate), jobs.fate, c.token) && RowsElsewhere(old(jobs.rows), jobs.rows, c.id)
    }

    /** Other threads queued events; nothing else happened to the queue. */
    twostate predicate OnlyHints()
      reads this, jobs
    {
      OnlyOvertakes(old(jobs.fate), jobs.fate) && OnlyQueues(old(jobs.rows), jobs.rows)
    }

    /** Between two steps other threads may queue events. */
    method Beat()
      requires Valid()
      modifies this`tick, jobs
      ensures Steady() && OnlyHints() && tick == old(tick) + 1
    {
      jobs.AppendAll(world.hints(tick));
      TimePasses(catalog, history, looks, world, tick);
      tick := tick + 1;
    }

    method IsCancelled() returns (cancelled: bool)
      requires Valid()
      modifies this`tick, jobs
      ensures Steady() && OnlyHints() && tick == old(tick) + 1 && cancelled == world.cancelled(tick)
    {
      Beat();
      cancelled := world.cancelled(tick);
    }

    /** `mark_monitoring_job_completed` and its like. */
    method Finish(c: ClaimedJob, status: Status) returns (ok: bool)
      requires Valid() && Claimed(c) && status in {Completed, ToReview, Excluded}
      modifies this`tick, jobs
      ensures Steady() && (ok ==> Ended(c)) && Leaves(c, {status}) && Elsewhere(c)
      ensures tick == old(tick) + 1 && ok == !world.faults(tick)
    {
      Beat();
      ok := !world.faults(tick);
      if ok {
        ghost var fate, rows := jobs.fate, jobs.rows;
        var changed := jobs.Finish(c.id, c.token, status);
        OneEnds(old(jobs.fate), old(jobs.rows), fate, rows, jobs.fate, jobs.rows, looks, c, changed, {status});
      }
    }

    /** `requeue_monitoring_job_after_cancellation`. */
    method Requeue(c: ClaimedJob, now: int) returns (ok: bool)
      requires Valid() && Claimed(c)
      modifies this`tick, jobs
      ensures Steady() && (ok ==> Ended(c)) && Leaves(c, {Waiting}) && Elsewhere(c)
      ensures tick == old(tick) + 1 && ok == !world.faults(tick)
    {
      Beat();
      ok := !world.faults(tick);
      if ok {
        ghost var fate, rows := jobs.fate, jobs.rows;
        var changed := jobs.Requeue(c.id, c.token, now + RECHECK_MS);
        OneEnds(old(jobs.fate), old(jobs.rows), fate, rows, jobs.fate, jobs.rows, looks, c, changed, {Waiting});
      }
    }

    /** `reschedule_monitoring_job` with its back-off. A lost claim is an error. */
    method Reschedule(c: ClaimedJob, now: int) returns (ok: bool)
      requires Valid() && Claimed(c)
      modifies this`tick, jobs
      ensures Steady() && (ok ==> Ended(c)) && Leaves(c, RETRIED) && Elsewhere(c)
      ensures tick == old(tick) + 1 && (!ok ==> world.faults(tick) || Lost(c))
    {
      Beat();
      if world.faults(tick) {
        return false;
      }
      ghost var fate, rows := jobs.fate, jobs.rows;
      var status := jobs.Reschedule(c.id, c.token, now + RetryDelay(c.job.attempts));
      ok := status.Some?;
      OneEnds(old(jobs.fate), old(jobs.rows), fate, rows, jobs.fate, jobs.rows, looks, c, ok, RETRIED);
    }

    // ---- reconciliation inside the cycle

    /** The comparison of a root's own catalog with a listing. */
    method CompareRoot(root: nat, listing: Listing, cancelled: bool) returns (gaps: seq<Gap>, outcome: Outcome)
      requires Valid() && DistinctFiles(listing.files)
      ensures RootCompared(PlacesOf(catalog, root), listing, cancelled, settings, gaps, outcome) && GapKinds(gaps)
      ensures outcome != Refused
    {
      ReplayedIsSound(history, root);
      var rows := Snapshot(PlacesOf(catalog, root), settings.limit);
      gaps, outcome := ReconcileRootGap(listing, cancelled, rows, settings.limit, settings.exclusions);
      assert RootFindings(listing, cancelled, rows, settings.limit, settings.exclusions, gaps, outcome);
      if outcome != Interrupted {
        ReportedKinds(listing.files, rows, Complete(listing, rows, settings.limit), settings.exclusions, gaps);
      }
    }

    /** `reconcile_root_gap` on the root's own catalog. */
    method ReconcileRoot(root: nat, now: int) returns (ok: bool, ghost gaps: seq<Gap>, ghost outcome: Outcome)
      requires Valid()
      modifies this`tick, this`overflowed, jobs
      ensures Steady() && OnlyHints() && tick == old(tick) + 1
      ensures ok <==> !world.faults(tick) && world.listings(tick).Some?
      ensures ok ==> RootCompared(PlacesOf(catalog, root), world.listings(tick).value, world.cancelled(tick), settings, gaps, outcome)
      ensures ok ==> GapsQueued(jobs.rows, root, now, gaps) && outcome != Refused
      ensures overflowed == if !ok || outcome == Interrupted then old(overflowed)
                            else if outcome == Bounded then old(overflowed) + {root} else old(overflowed) - {root}
    {
      Beat();
      gaps, outcome := [], Interrupted;
      if world.faults(tick) || world.listings(tick).None? {
        return false, gaps, outcome;
      }
      var found, verdict := CompareRoot(root, world.listings(tick).value, world.cancelled(tick));
      gaps, outcome := found, verdict;
      if verdict != Interrupted {
        overflowed := if verdict == Bounded then overflowed + {root} else overflowed - {root};
      }
      ghost var fate, rows := jobs.fate, jobs.rows;
      QueueGaps(root, now, found);
      HintsTwice(old(jobs.fate), old(jobs.rows), fate, rows, jobs.fate, jobs.rows);
      ok := true;
    }

    /** The events of a reconciliation. */
    method QueueGaps(root: nat, now: int, gaps: seq<Gap>)
      requires Valid() && GapKinds(gaps)
      modifies jobs
      ensures Steady() && OnlyHints() && GapsQueued(jobs.rows, root, now, gaps)
    {
      jobs.AppendAll(AsEvents(root, now, gaps));
      EventsQueueGaps(jobs.rows, root, now, gaps);
    }

    /** The comparison of what lies under the paths of a directory. */
    method CompareDirectory(root: nat, before: Option<Path>, after: Option<Path>, listing: Option<Listing>, cancelled: bool)
      returns (gaps: seq<Gap>, outcome: Outcome)
      requires Valid() && (before.Some? || after.Some?)
      requires listing.Some? ==> after.Some? && DistinctFiles(listing.value.files)
      requires listing.Some? ==> forall e | e in listing.value.files :: AtOrUnder(e.path, after.value)
      ensures DirectoryCompared(PlacesOf(catalog, root), before, after, listing, cancelled, settings, gaps, outcome)
      ensures GapKinds(gaps) && (outcome == Interrupted <==> listing.Some? && (listing.value.cancelled || cancelled))
      ensures outcome in {Interrupted, Changed, Refused}
    {
      ReplayedIsSound(history, root);
      var rows := Snapshot(PlacesOf(catalog, root), settings.limit);
      gaps, outcome := ReconcileDirectoryGap(before, after, listing, cancelled, rows, settings.limit, settings.exclusions);
      assert DirectoryFindings(before, after, listing, cancelled, rows, settings.limit, settings.exclusions, gaps, outcome);
      if outcome !in {Interrupted, Refused} {
        ReportedKinds(FilesBelow(listing), Scoped(rows, before, after), true, settings.exclusions, gaps);
      }
    }

    /** `reconcile_directory_gap`. */
    method ReconcileDirectory(root: nat, before: Option<Path>, after: Option<Path>, now: int)
      returns (ok: bool, ghost gaps: seq<Gap>, ghost outcome: Outcome)
      requires Valid() && (before.Some? || after.Some?)
      modifies this`tick, this`overflowed, jobs
      ensures Steady() && OnlyHints() && tick == old(tick) + 1
      ensures ok <==> !world.faults(tick) && outcome != Refused
      ensures !world.faults(tick) ==>
                DirectoryCompared(PlacesOf(catalog, root), before, after, Below(world.listings(tick), after), world.cancelled(tick),
                                  settings, gaps, outcome)
      ensures ok ==> GapsQueued(jobs.rows, root, now, gaps) && outcome in {Interrupted, Changed}
      ensures overflowed == if !world.faults(tick) && outcome == Refused then old(overflowed) + {root} else old(overflowed)
    {
      Beat();
      gaps, outcome := [], Interrupted;
      if world.faults(tick) {
        return false, gaps, outcome;
      }
      var found, verdict := CompareDirectory(root, before, after, Below(world.listings(tick), after), world.cancelled(tick));
      gaps, outcome := found, verdict;
      if verdict == Refused {
        overflowed := overflowed + {root};
        return false, gaps, outcome;
      }
      ghost var fate, rows := jobs.fate, jobs.rows;
      QueueGaps(root, now, found);
      HintsTwice(old(jobs.fate), old(jobs.rows), fate, rows, jobs.fate, jobs.rows);
      ok := true;
    }

    // ---- screening one claimed job

    /** A look that must be repeated: the row records it and waits. */
    method RecordLook(c: ClaimedJob, ghost g: Glance, sample: Sample, count: nat, now: int) returns (ok: bool)
      requires Valid() && Claimed(c) && Recorded(c) && tick > 0 && LooksReal(looks, world, tick - 1)
      requires g == Glance(tick, c.job.root, g.path, sample) && c.job.after == Some(g.path) && IsReal(g, world, tick)
      modifies this`looks, jobs`rows, jobs`fate
      ensures Valid() && EndsOnly(old(jobs.fate), jobs.fate)
      ensures (ok ==> Ended(c)) && Leaves(c, {Waiting}) && (!ok ==> jobs.fate == old(jobs.fate))
      ensures looks == if ok then Noted(old(looks), c.id, g) else old(looks)
      ensures ok ==> SampleSet(old(jobs.rows), jobs.rows, c, sample, count)
      ensures !ok ==> world.faults(tick) || Lost(c)
    {
      ok := SetSample(c, sample, count, now);
      if ok {
        NoteLook(c, g, count, old(jobs.rows));
      }
    }

    /** The look is on record with the sample of the row. */
    ghost method NoteLook(c: ClaimedJob, g: Glance, count: nat, before: Rows)
      requires jobs.Valid() && Sane(world) && tick > 0 && LooksReal(looks, world, tick - 1)
      requires CatalogKept(catalog, history, world, tick)
      requires LooksMatch(before, looks) && SampleSet(before, jobs.rows, c, g.sample, count)
      requires g.at == tick && c.job.root == g.root && c.job.after == Some(g.path) && IsReal(g, world, tick)
      modifies this`looks
      ensures Valid() && looks == Noted(old(looks), c.id, g)
    {
      NotedIsReal(looks, world, c.id, g);
      LookOfRow(before, looks, c, g, count, jobs.rows);
      looks := Noted(looks, c.id, g);
    }

    /** The guarded update of the row: while the claim is held, the row is that of the file
        that was claimed. */
    method SetSample(c: ClaimedJob, sample: Sample, count: nat, now: int) returns (ok: bool)
      requires jobs.Valid() && Claimed(c) && Recorded(c)
      modifies jobs`rows, jobs`fate
      ensures jobs.Valid() && EndsOnly(old(jobs.fate), jobs.fate)
      ensures Leaves(c, {Waiting}) && (ok ==> Ended(c) && SampleSet(old(jobs.rows), jobs.rows, c, sample, count))
      ensures !ok ==> jobs.fate == old(jobs.fate) && jobs.rows == old(jobs.rows) && (world.faults(tick) || Lost(c))
    {
      if world.faults(tick) {
        return false;
      }
      ok := jobs.RecordSample(c.id, c.token, sample, count, now + RECHECK_MS);
      if ok {
        HeldIsIntact(old(jobs.rows), old(jobs.fate), jobs.owner, jobs.claimed, c);
        LookEnds(old(jobs.fate), old(jobs.rows), jobs.fate, jobs.rows, c);
      }
    }

    /** `sample_stability`, on the path of the job. */
    method SampleStability(c: ClaimedJob, path: Path, now: int) returns (decision: Decision)
      requires Valid() && Claimed(c) && Recorded(c) && LookedAt(looks, c.id, c.job) && c.job.after == Some(path)
      modifies this`tick, this`looks, jobs
      ensures Steady() && (decision == Wait ==> Ended(c)) && (decision == Stable ==> TwiceSeen(looks, c))
      ensures tick == old(tick) + 1 && (decision == Stable <==> LooksStable(c.job, LookFor(world, c.job, tick)))
      ensures decision == Review <==> IsUnsafe(LookFor(world, c.job, tick))
      ensures decision == Exclude <==> LookFor(world, c.job, tick).NotAFile?
      ensures decision == Retry <==> IsUnreachable(LookFor(world, c.job, tick))
      ensures decision == Fault ==> world.faults(tick) || Lost(c)
      ensures if decision == Wait then Leaves(c, {Waiting}) else OnlyOvertakes(old(jobs.fate), jobs.fate)
      ensures decision in {Stable, Wait} ==>
                LookFor(world, c.job, tick).Seen?
                && looks == Noted(old(looks), c.id, Glance(tick, c.job.root, path, LookFor(world, c.job, tick).sample))
      ensures decision !in {Stable, Wait} ==> looks == old(looks)
    {
      Beat();
      match world.looks(tick, c.job.root, path)
      case RemoteOrLink => decision := Review;
      case NotAFile => decision := Exclude;
      case Unreadable => decision := Retry;
      case Seen(sample, hiddenOrRemote, tooLarge, readable) =>
        if hiddenOrRemote || tooLarge {
          return Review;
        }
        if !readable {
          return Retry;
        }
        ghost var fate := jobs.fate;
        decision := CompareLook(c, Glance(tick, c.job.root, path, sample), sample, now);
        LaterEnd(old(jobs.fate), fate, jobs.fate, jobs.rows, c, {Waiting});
    }

    /** A safe, readable look: it is the second of its kind, or the row records it. */
    method CompareLook(c: ClaimedJob, ghost g: Glance, sample: Sample, now: int) returns (decision: Decision)
      requires Valid() && Claimed(c) && Recorded(c) && LookedAt(looks, c.id, c.job)
      requires tick > 0 && LooksReal(looks, world, tick - 1)
      requires g == Glance(tick, c.job.root, g.path, sample) && c.job.after == Some(g.path) && IsReal(g, world, tick)
      modifies this`looks, jobs`rows, jobs`fate
      ensures Valid() && EndsOnly(old(jobs.fate), jobs.fate)
      ensures decision in {Stable, Wait, Fault}
      ensures decision == Stable <==> c.job.sample == Some(sample) && c.job.stableCount >= 1
      ensures if decision == Stable then TwiceSeen(looks, c) else Leaves(c, {Waiting})
      ensures decision == Wait ==> Ended(c)
      ensures decision != Wait ==> jobs.fate == old(jobs.fate)
      ensures decision == Fault ==> world.faults(tick) || Lost(c)
      ensures looks == if decision == Fault then old(looks) else Noted(old(looks), c.id, g)
    {
      var same := c.job.sample == Some(sample);
      if same && c.job.stableCount >= 1 {
        LookRepeated(jobs.rows, looks, c, g);
        NotedIsReal(looks, world, c.id, g);
        looks := Noted(looks, c.id, g);
        return Stable;
      }
      var ok := RecordLook(c, g, sample, if same then c.job.stableCount + 1 else 1, now);
      decision := if ok then Wait else Fault;
    }

    /** The reconciliation that a job stands for. It fails on a fault, without a listing, or,
        for a directory, on incomplete data, which leaves the root overflowed. */
    method CompareGap(c: ClaimedJob, now: int) returns (done: bool, ghost outcome: Outcome)
      requires Valid()
      modifies this`tick, this`overflowed, jobs
      ensures Steady() && OnlyHints() && tick == old(tick) + 1
      ensures done ==> !world.faults(tick)
      ensures !done ==> world.faults(tick) || world.listings(tick).None? || c.job.root in overflowed
      ensures done ==> (outcome == Interrupted <==> InterruptedAt(world, c.job, tick)) && outcome != Refused
      ensures done ==> (outcome == Bounded <==> BoundedAt(world, c.job, tick, PlacesOf(catalog, c.job.root), settings.limit))
      ensures done && outcome == Interrupted ==> overflowed == old(overflowed)
      ensures done && !ByDirectory(c.job) && outcome != Interrupted ==> (c.job.root in overflowed <==> outcome == Bounded)
    {
      if ByDirectory(c.job) {
        ghost var gaps;
        done, gaps, outcome := ReconcileDirectory(c.job.root, c.job.before, c.job.after, now);
        if done {
          DirectoryOutcome(PlacesOf(catalog, c.job.root), c.job.before, c.job.after, Below(world.listings(tick), c.job.after),
                           world.cancelled(tick), settings, gaps, outcome);
        }
      } else {
        ghost var gaps;
        done, gaps, outcome := ReconcileRoot(c.job.root, now);
        if done {
          RootOutcome(PlacesOf(catalog, c.job.root), world.listings(tick).value, world.cancelled(tick), settings, gaps, outcome);
        }
      }
    }

    /** The comparison, and what is to become of its job. */
    method DecideGap(c: ClaimedJob, now: int) returns (done: bool, ghost outcome: Outcome, ghost ending: GapEnding)
      requires Valid()
      modifies this`tick, this`overflowed, jobs
      ensures Steady() && OnlyHints() && tick == old(tick) + 1
      ensures ending == EndOfGap(done, world.cancelled(tick + 1), IsWhole(c.job) && c.job.root in overflowed)
      ensures ending == if done then GapEnd(world, c.job, tick, PlacesOf(catalog, c.job.root), settings.limit,
                                            old(c.job.root in overflowed)) else GapRetried
      ensures done ==> !world.faults(tick)
      ensures done ==> (outcome in {Changed, Reconciled} <==>
                          !InterruptedAt(world, c.job, tick)
                          && !BoundedAt(world, c.job, tick, PlacesOf(catalog, c.job.root), settings.limit))
      ensures !done ==> world.faults(tick) || world.listings(tick).None? || c.job.root in overflowed
    {
      done, outcome := CompareGap(c, now);
      ending := EndOfGap(done, world.cancelled(tick + 1), IsWhole(c.job) && c.job.root in overflowed);
      GapEndIs(world, c.job, tick, PlacesOf(catalog, c.job.root), settings.limit, old(c.job.root in overflowed),
               c.job.root in overflowed, done, outcome);
    }

    /** What follows the reconciliation of a job. */
    method SettleGap(c: ClaimedJob, done: bool, now: int, ghost ending: GapEnding) returns (ok: bool)
      requires Valid() && Claimed(c)
      requires ending == EndOfGap(done, world.cancelled(tick + 1), IsWhole(c.job) && c.job.root in overflowed)
      modifies this`tick, jobs
      ensures Steady() && (ok ==> Ended(c))
      ensures Leaves(c, GapStatuses(ending))
      ensures old(tick) < tick && (!ok ==> world.faults(tick) || Lost(c))
    {
      if !done {
        ok := Reschedule(c, now);
        return;
      }
      var cancelled := IsCancelled();
      ghost var fate := jobs.fate;
      ok := EndGap(c, cancelled, now, ending);
      LaterEnd(old(jobs.fate), fate, jobs.fate, jobs.rows, c, GapStatuses(ending));
    }

    method EndGap(c: ClaimedJob, cancelled: bool, now: int, ghost ending: GapEnding) returns (ok: bool)
      requires Valid() && Claimed(c) && ending == EndOfGap(true, cancelled, IsWhole(c.job) && c.job.root in overflowed)
      modifies this`tick, jobs
      ensures Steady() && (ok ==> Ended(c)) && tick == old(tick) + 1
      ensures Leaves(c, GapStatuses(ending))
      ensures !ok ==> world.faults(tick) || Lost(c)
    {
      if cancelled {
        ok := Requeue(c, now);
      } else if IsWhole(c.job) && c.job.root in overflowed {
        ok := Reschedule(c, now);
      } else {
        ok := Finish(c, Completed);
      }
    }

    /** Jobs that stand for a whole root or directory. Without a fault the job ends as `GapEnd`
        says of the world at this step. */
    method ScreenGap(c: ClaimedJob, now: int)
      returns (ok: bool, ghost done: bool, ghost outcome: Outcome, ghost ending: GapEnding)
      requires Valid() && Claimed(c)
      modifies this`tick, this`overflowed, jobs
      ensures Steady() && (ok ==> Ended(c)) && Leaves(c, GapStatuses(ending))
      ensures ending == if done then GapEnd(world, c.job, old(tick) + 1, PlacesOf(catalog, c.job.root), settings.limit,
                                            old(c.job.root in overflowed)) else GapRetried
      ensures done ==> !world.faults(old(tick) + 1)
      ensures done ==> (outcome in {Changed, Reconciled} <==>
                          !InterruptedAt(world, c.job, old(tick) + 1)
                          && !BoundedAt(world, c.job, old(tick) + 1, PlacesOf(catalog, c.job.root), settings.limit))
      ensures !done ==> world.faults(old(tick) + 1) || world.listings(old(tick) + 1).None? || c.job.root in overflowed
      ensures !ok ==> FaultIn(world, old(tick), tick) || Lost(c)
    {
      var compared;
      compared, outcome, ending := DecideGap(c, now);
      done := compared;
      ghost var fate := jobs.fate;
      ok := SettleGap(c, compared, now, ending);
      LaterEnd(old(jobs.fate), fate, jobs.fate, jobs.rows, c, GapStatuses(ending));
    }

    /** A stable or removed file goes on to the batch; anything else ends here. */
    method ScreenFile(c: ClaimedJob, now: int) returns (ok: bool, kept: Option<Prepared>)
      requires Valid() && Claimed(c) && Recorded(c) && LookedAt(looks, c.id, c.job)
      modifies this`tick, this`looks, jobs
      ensures Steady() && (ok && kept.None? ==> Ended(c))
      ensures kept.Some? ==> kept.value.claim == c && (kept.value.current.Some? ==> TwiceSeen(looks, c))
      ensures kept.Some? && kept.value.current.Some? ==> kept.value.current == c.job.after
      ensures AtMostOneMore(old(looks), looks, c.id)
      ensures ScreenedAs(FileScreening(c.job, settings.exclusions, LookFor(world, c.job, old(tick) + 1)), c, ok, kept,
                         old(jobs.fate), jobs.fate, jobs.rows)
      ensures !ok ==> FaultIn(world, old(tick), tick) || Lost(c)
    {
      kept := None;
      var effective := Keep(c.job.after, c.job.before);
      if effective.Some? && IsExcluded(effective.value, settings.exclusions) {
        ok := Finish(c, Excluded);
      } else if c.job.kind == Removed {
        return true, Some(Prepared(c, None, c.job.before));
      } else if c.job.after.None? {
        ok := Finish(c, ToReview);
      } else {
        ok, kept := ScreenStable(c, now);
      }
    }

    /** A file that is neither excluded nor removed: it goes on once it is stable. */
    method ScreenStable(c: ClaimedJob, now: int) returns (ok: bool, kept: Option<Prepared>)
      requires Valid() && Claimed(c) && Recorded(c) && LookedAt(looks, c.id, c.job) && c.job.after.Some?
      modifies this`tick, this`looks, jobs
      ensures Steady() && (ok && kept.None? ==> Ended(c))
      ensures kept.Some? ==> kept.value.claim == c && (kept.value.current.Some? ==> TwiceSeen(looks, c))
      ensures kept.Some? && kept.value.current.Some? ==> kept.value.current == c.job.after
      ensures AtMostOneMore(old(looks), looks, c.id)
      ensures ScreenedAs(StableScreening(c.job, LookFor(world, c.job, old(tick) + 1)), c, ok, kept, old(jobs.fate), jobs.fate, jobs.rows)
      ensures !ok ==> FaultIn(world, old(tick), tick) || Lost(c)
    {
      kept := None;
      var decision := SampleStability(c, c.job.after.value, now);
      match decision
      case Stable => return true, Some(Prepared(c, c.job.after, MovedSource(c.job)));
      case Wait => ok := true;
      case Exclude => ok := Finish(c, Excluded);
      case Review => ok := Finish(c, ToReview);
      case Retry => ok := Reschedule(c, now);
      case Fault => ok := false;
    }

    /** One turn of the loop over the claimed jobs. */
    method Screen(c: ClaimedJob, now: int) returns (ok: bool, kept: Option<Prepared>)
      requires Valid() && Claimed(c) && Recorded(c) && LookedAt(looks, c.id, c.job)
      modifies this`tick, this`looks, this`overflowed, jobs
      ensures Steady() && (ok && kept.None? ==> Ended(c))
      ensures kept.Some? ==> kept.value.claim == c && (kept.value.current.Some? ==> TwiceSeen(looks, c))
      ensures kept.Some? && kept.value.current.Some? ==> kept.value.current == c.job.after
      ensures AtMostOneMore(old(looks), looks, c.id)
      ensures ScreenedAs(ScreeningAt(world, settings, c.job, old(tick) + 1), c, ok, kept, old(jobs.fate), jobs.fate, jobs.rows)
      ensures !ok ==> FaultIn(world, old(tick), tick) || Lost(c)
    {
      kept := None;
      var cancelled := IsCancelled();
      ghost var fate := jobs.fate;
      if cancelled {
        ok := Requeue(c, now);
      } else if c.job.root !in settings.roots {
        ok := Reschedule(c, now);
      } else {
        ok, kept := ScreenKnown(c, now);
      }
      LaterScreened(ScreeningAt(world, settings, c.job, old(tick) + 1), c, ok, kept, old(jobs.fate), fate, jobs.fate, jobs.rows);
    }

    /** A job of an enabled root. */
    method ScreenKnown(c: ClaimedJob, now: int) returns (ok: bool, kept: Option<Prepared>)
      requires Valid() && Claimed(c) && Recorded(c) && LookedAt(looks, c.id, c.job)
      modifies this`tick, this`looks, this`overflowed, jobs
      ensures Steady() && (ok && kept.None? ==> Ended(c))
      ensures kept.Some? ==> kept.value.claim == c && (kept.value.current.Some? ==> TwiceSeen(looks, c))
      ensures kept.Some? && kept.value.current.Some? ==> kept.value.current == c.job.after
      ensures AtMostOneMore(old(looks), looks, c.id)
      ensures ScreenedAs(KnownScreening(world, settings, c.job, old(tick) + 1), c, ok, kept, old(jobs.fate), jobs.fate, jobs.rows)
      ensures !ok ==> FaultIn(world, old(tick), tick) || Lost(c)
    {
      kept := None;
      if IsGapJob(c.job) {
        ghost var done, outcome, ending;
        ok, done, outcome, ending := ScreenGap(c, now);
      } else {
        ok, kept := ScreenFile(c, now);
      }
    }

    // ---- one batch of prepared jobs of a root

    ghost predicate BatchSound(batch: seq<Prepared>)
      reads this, jobs
    {
      AllPrepared(batch, jobs.fate, jobs.owner, looks)
    }

    ghost predicate AllEnded(batch: seq<Prepared>)
      reads this, jobs
    {
      BatchEnded(batch, jobs.fate)
    }

    /** `update_monitoring_job_stage` for one job of the batch. */
    method AdvanceOne(batch: seq<Prepared>, i: nat, stage: Stage, now: int) returns (ok: bool)
      requires Valid() && BatchSound(batch) && i < |batch| && StagedTo(jobs.fate, jobs.rows, batch, i, stage)
      modifies this`tick, jobs
      ensures Steady() && OnlyOvertakes(old(jobs.fate), jobs.fate) && tick == old(tick) + 1
      ensures ok ==> StagedTo(jobs.fate, jobs.rows, batch, i + 1, stage)
      ensures !ok ==> world.faults(tick) || !Holds(batch[i].claim)
    {
      assert batch[i] in batch;
      Beat();
      HeldAreUntouched(old(jobs.rows), jobs.rows, jobs.fate, jobs.owner, batch);
      StageStays(old(jobs.fate), old(jobs.rows), jobs.fate, jobs.rows, batch, i, stage);
      if world.faults(tick) {
        return false;
      }
      ok := AdvanceRow(batch, i, stage, now);
    }

    method AdvanceRow(batch: seq<Prepared>, i: nat, stage: Stage, now: int) returns (ok: bool)
      requires Valid() && ClaimsApart(batch) && i < |batch| && StagedTo(jobs.fate, jobs.rows, batch, i, stage)
      modifies jobs`rows
      ensures Valid() && ok == old(Guards(jobs.rows, batch[i].claim.token, batch[i].claim.id))
      ensures ok ==> StagedTo(jobs.fate, jobs.rows, batch, i + 1, stage)
    {
      ok := jobs.Advance(batch[i].claim.id, batch[i].claim.token, stage, now);
      if ok {
        StageNext(jobs.fate, old(jobs.rows), jobs.rows, batch, i, stage);
        SampleStays(old(jobs.rows), jobs.rows, batch[i].claim.id, looks);
      }
    }

    /** `advance_monitoring_job_stage`: a lost claim is an error. */
    method AdvanceAll(batch: seq<Prepared>, stage: Stage, now: int) returns (ok: bool)
      requires Valid() && BatchSound(batch)
      modifies this`tick, jobs
      ensures Steady() && OnlyOvertakes(old(jobs.fate), jobs.fate) && old(tick) <= tick
      ensures ok ==> StagedTo(jobs.fate, jobs.rows, batch, |batch|, stage)
      ensures !ok ==> FaultIn(world, old(tick), tick) || exists p :: p in batch && !Holds(p.claim)
    {
      for i := 0 to |batch|
        invariant Steady() && OnlyOvertakes(old(jobs.fate), jobs.fate) && old(tick) <= tick
        invariant StagedTo(jobs.fate, jobs.rows, batch, i, stage)
      {
        ok := AdvanceOne(batch, i, stage, now);
        if !ok {
          return;
        }
      }
      ok := true;
    }

    /** The first `n` jobs of the batch ended as they should; the others still wait for it. */
    ghost predicate Closing(batch: seq<Prepared>, n: nat, end: BatchEnd, first: map<nat, Fate>)
      reads this, jobs
    {
      && BatchSound(batch) && TokensApart(batch) && EndsOnly(first, jobs.fate)
      && Ending(first, jobs.fate, jobs.rows, batch, n, end) && FirstEnded(batch, n, jobs.fate)
    }

    /** One job of a batch ends. */
    method CloseOne(batch: seq<Prepared>, i: nat, end: BatchEnd, now: int, ghost first: map<nat, Fate>) returns (ok: bool)
      requires Valid() && i < |batch| && Closing(batch, i, end, first)
      modifies this`tick, jobs
      ensures Steady() && tick == old(tick) + 1
      ensures ok ==> Closing(batch, i + 1, end, first)
      ensures !ok ==> world.faults(tick) || (end == Retries && !Holds(batch[i].claim))
    {
      assert batch[i] in batch;
      ok := EndClaim(batch[i], end, now);
      ClosedOne(batch, i, end, first, old(jobs.fate), old(jobs.rows), jobs.fate, jobs.rows);
      if ok {
        AllStayEnded(batch, i, old(jobs.fate), jobs.fate);
      }
    }

    /** One job ends in the way of its batch. */
    method EndClaim(p: Prepared, end: BatchEnd, now: int) returns (ok: bool)
      requires Valid() && Claimed(p.claim)
      modifies this`tick, jobs
      ensures Steady() && (ok ==> Ended(p.claim)) && Elsewhere(p.claim) && tick == old(tick) + 1
      ensures LeftAs(old(jobs.fate), jobs.fate, jobs.rows, p.claim, EndStatuses(end, p))
      ensures !ok ==> world.faults(tick) || (end == Retries && !Holds(p.claim))
    {
      match end
      case Requeues => ok := Requeue(p.claim, now);
      case Retries => ok := Reschedule(p.claim, now);
      case Completes(seen) => ok := Finish(p.claim, if IsCataloged(p, seen) then Completed else ToReview);
    }

    /** All jobs of a batch end in one way: `cancel_monitoring_jobs`, the rescheduling of a batch
        whose pipeline failed, or the end of `finish_incremental_pipeline`. */
    method CloseAll(batch: seq<Prepared>, end: BatchEnd, now: int) returns (ok: bool)
      requires Valid() && BatchSound(batch)
      modifies this`tick, jobs
      ensures Steady() && (ok ==> AllEnded(batch)) && old(tick) <= tick
      ensures ok ==> Ending(old(jobs.fate), jobs.fate, jobs.rows, batch, |batch|, end)
      ensures !ok ==> FaultIn(world, old(tick), tick) || (end == Retries && exists p :: p in batch && !Holds(p.claim))
    {
      OwnersApart(jobs.owner, batch);
      NoneEnded(jobs.fate, jobs.fate, jobs.rows, batch, end);
      ok := true;
      for i := 0 to |batch|
        invariant Valid() && jobs.owner == old(jobs.owner) && jobs.claimed == old(jobs.claimed) && old(tick) <= tick && ok
        invariant Closing(batch, i, end, old(jobs.fate))
      {
        ok := CloseOne(batch, i, end, now, old(jobs.fate));
        if !ok {
          return;
        }
      }
    }

    /** The jobs of a batch are back in the queue, as if they had not been claimed. */
    method Withdraw(batch: seq<Prepared>, now: int, ghost first: map<nat, Fate>) returns (ok: bool)
      requires Valid() && BatchSound(batch) && OnlyOvertakes(first, jobs.fate)
      modifies this`tick, jobs
      ensures Steady() && (ok ==> AllEnded(batch)) && old(tick) <= tick
      ensures ok ==> Ending(first, jobs.fate, jobs.rows, batch, |batch|, Requeues)
      ensures !ok ==> FaultIn(world, old(tick), tick)
    {
      ok := CloseAll(batch, Requeues, now);
      if ok {
        EndingSince(first, old(jobs.fate), jobs.fate, jobs.rows, batch, Requeues);
      }
    }

    /** One analysis stage: poll, advance, analyse. */
    method RunStage(batch: seq<Prepared>, stage: Stage, polled: bool, now: int) returns (ok: bool, cancelled: bool)
      requires Valid() && BatchSound(batch)
      modifies this`tick, jobs
      ensures Steady() && OnlyOvertakes(old(jobs.fate), jobs.fate) && old(tick) <= tick
      ensures cancelled ==> ok && CancelledIn(world, old(tick), tick)
      ensures ok && !cancelled ==> StagedTo(jobs.fate, jobs.rows, batch, |batch|, stage)
      ensures !ok ==> FaultIn(world, old(tick), tick) || exists p :: p in batch && !Holds(p.claim)
    {
      ok, cancelled := true, false;
      if polled {
        cancelled := IsCancelled();
        if cancelled {
          return;
        }
      }
      ok := AdvanceAll(batch, stage, now);
      if ok {
        ghost var fate, rows := jobs.fate, jobs.rows;
        Beat();
        HeldAreUntouched(rows, jobs.rows, jobs.fate, jobs.owner, batch);
        StageStays(fate, rows, jobs.fate, jobs.rows, batch, |batch|, stage);
        ok := !world.faults(tick);
      }
    }

    /** The analysis stages of `finish_incremental_pipeline`, a cancellation between any two. */
    method RunStages(batch: seq<Prepared>, now: int) returns (ok: bool, cancelled: bool)
      requires Valid() && BatchSound(batch)
      modifies this`tick, jobs
      ensures Steady() && OnlyOvertakes(old(jobs.fate), jobs.fate) && old(tick) <= tick
      ensures cancelled ==> ok && CancelledIn(world, old(tick), tick)
      ensures ok && !cancelled ==> StagedTo(jobs.fate, jobs.rows, batch, |batch|, Finalizing)
      ensures !ok ==> FaultIn(world, old(tick), tick) || exists p :: p in batch && !Holds(p.claim)
    {
      var stages := [(Content, true), (Semantic, true), (Relationships, true), (Proposal, false), (Search, true), (Finalizing, false)];
      ok, cancelled := true, false;
      for i := 0 to |stages|
        invariant Steady() && OnlyOvertakes(old(jobs.fate), jobs.fate) && old(tick) <= tick
        invariant ok && !cancelled && (i > 0 ==> StagedTo(jobs.fate, jobs.rows, batch, |batch|, stages[i - 1].0))
      {
        ok, cancelled := RunStage(batch, stages[i].0, stages[i].1, now);
        if !ok || cancelled {
          return;
        }
      }
    }

    /** `finish_incremental_pipeline`: completed unless cancelled, or else back in the queue. */
    method Pipeline(batch: seq<Prepared>, seen: seq<Place>, scanCancelled: bool, now: int) returns (ok: bool)
      requires Valid() && BatchSound(batch)
      modifies this`tick, jobs
      ensures Steady() && (ok ==> AllEnded(batch))
      ensures ok && !scanCancelled && !CancelledIn(world, old(tick), tick) ==>
                Ending(old(jobs.fate), jobs.fate, jobs.rows, batch, |batch|, Completes(seen))
      ensures ok && scanCancelled ==> Ending(old(jobs.fate), jobs.fate, jobs.rows, batch, |batch|, Requeues)
      ensures !ok ==> FaultIn(world, old(tick), tick) || exists p :: p in batch && !Holds(p.claim)
    {
      var cancelled;
      if scanCancelled {
        ok := Withdraw(batch, now, jobs.fate);
        return;
      }
      ok, cancelled := RunStages(batch, now);
      if !ok {
        return;
      }
      if cancelled {
        ok := Withdraw(batch, now, old(jobs.fate));
      } else {
        ghost var fate := jobs.fate;
        ok := CloseAll(batch, Completes(seen), now);
        if ok {
          EndingSince(old(jobs.fate), fate, jobs.fate, jobs.rows, batch, Completes(seen));
        }
      }
    }

    /** One transaction on the catalog. */
    method StoreChange(root: nat, places: Places, ghost change: Change)
      requires Valid() && IsSafe(change, world, tick) && catalog[root := places] == AfterChange(catalog, change)
      modifies this`catalog, this`history
      ensures Valid() && catalog == old(catalog)[root := places] && history == old(history) + [change]
    {
      ChangeKept(catalog, history, world, tick, change);
      catalog := catalog[root := places];
      history := history + [change];
    }

    /** Scan the batch, unless the catalog is crowded; a scan that drifted from the stable
        samples is thrown away. */
    method ScanBatch(root: nat, batch: seq<Prepared>) returns (scanned: Option<seq<Place>>, cancelled: bool)
      requires Valid()
      modifies this`tick, this`overflowed, jobs
      ensures Steady() && OnlyOvertakes(old(jobs.fate), jobs.fate) && tick == old(tick) + 1
      ensures scanned.Some? ==> world.scans(tick) == Scanned(scanned.value, cancelled)
      ensures scanned.Some? ==> OneScan(scanned.value) && NoDrift(batch, scanned.value)
      ensures scanned.None? ==> world.faults(tick) || IsCrowded(PlacesOf(catalog, root), settings.limit, batch)
                                || world.scans(tick).ScanFailed? || !NoDrift(batch, world.scans(tick).files)
      ensures overflowed == old(overflowed)
              || (IsCrowded(PlacesOf(catalog, root), settings.limit, batch) && overflowed == old(overflowed) + {root})
    {
      Beat();
      scanned, cancelled := None, false;
      if world.faults(tick) {
        return;
      }
      var sampled := exists p | p in batch :: p.claim.job.sample.Some?;
      if sampled && |PlacesOf(catalog, root)| >= settings.limit {
        overflowed := overflowed + {root};
        return;
      }
      match world.scans(tick)
      case ScanFailed =>
      case Scanned(files, scanCancelled) =>
        if !(exists s | s in files :: Drifts(batch, s)) {
          scanned, cancelled := Some(files), scanCancelled;
        }
    }

    /** Scan the batch and store the scan. */
    method StoreScan(root: nat, batch: seq<Prepared>) returns (stored: Option<seq<Place>>, cancelled: bool)
      requires Valid() && BatchSound(batch) && OfRoot(batch, root)
      modifies this`tick, this`overflowed, this`catalog, this`history, jobs
      ensures Steady() && OnlyOvertakes(old(jobs.fate), jobs.fate) && old(tick) < tick
      ensures stored.None? ==> catalog == old(catalog)
      ensures stored.Some? ==> OneScan(stored.value) && NoDrift(batch, stored.value) && StoredStably(root, batch, stored.value, looks)
      ensures history == if stored.Some? then old(history) + [Stored(root, batch, stored.value, looks, old(tick) + 1)] else old(history)
      ensures stored.Some? ==> catalog == old(catalog)[root := ObservedAll(PlacesOf(old(catalog), root), stored.value)]
      ensures stored.Some? ==> world.scans(old(tick) + 1) == Scanned(stored.value, cancelled)
      ensures stored.None? ==> FaultIn(world, old(tick), tick) || IsCrowded(PlacesOf(old(catalog), root), settings.limit, batch)
                               || world.scans(old(tick) + 1).ScanFailed? || !NoDrift(batch, world.scans(old(tick) + 1).files)
      ensures overflowed == old(overflowed)
              || (IsCrowded(PlacesOf(old(catalog), root), settings.limit, batch) && overflowed == old(overflowed) + {root})
    {
      stored, cancelled := ScanBatch(root, batch);
      if stored.Some? {
        var ok := CommitScan(root, batch, stored.value, old(tick) + 1);
        if !ok {
          stored := None;
        }
      }
    }

    /** `persist_reconciliation_output`. */
    method CommitScan(root: nat, batch: seq<Prepared>, seen: seq<Place>, ghost at: nat) returns (ok: bool)
      requires Valid() && BatchSound(batch) && OfRoot(batch, root) && OneScan(seen) && NoDrift(batch, seen)
      requires 0 < at <= tick && LooksReal(looks, world, at - 1)
      requires world.scans(at).Scanned? && world.scans(at).files == seen
      modifies this`tick, this`catalog, this`history, jobs
      ensures Steady() && OnlyOvertakes(old(jobs.fate), jobs.fate) && tick == old(tick) + 1 && ok == !world.faults(tick)
      ensures StoredStably(root, batch, seen, looks)
      ensures catalog == if ok then old(catalog)[root := ObservedAll(PlacesOf(old(catalog), root), seen)] else old(catalog)
      ensures history == if ok then old(history) + [Stored(root, batch, seen, looks, at)] else old(history)
    {
      PreparedIsStable(looks, root, batch, seen, jobs.fate, jobs.owner);
      Beat();
      ok := !world.faults(tick);
      if ok {
        StoreChange(root, ObservedAll(PlacesOf(catalog, root), seen), Stored(root, batch, seen, looks, at));
      }
    }

    /** Give up the path that one job left; for a move, only after its destination is
        cataloged. */
    method GiveUpPath(root: nat, p: Prepared, seen: seq<Place>) returns (ok: bool)
      requires Valid() && root in catalog
      modifies this`tick, this`catalog, this`history, jobs
      ensures Steady() && OnlyOvertakes(old(jobs.fate), jobs.fate) && old(tick) <= tick && (ok ==> DestinationsFirst([p], seen))
      ensures catalog == if ok && p.missing.Some? then old(catalog)[root := old(catalog)[root] - {Key(p.missing.value)}]
                         else old(catalog)
      ensures history == old(history) + if ok && p.missing.Some? then [GaveUp(root, p.missing.value)] else []
      ensures !ok ==> !DestinationsFirst([p], seen) || FaultIn(world, old(tick), tick)
    {
      if p.missing.None? {
        return true;
      }
      if p.claim.job.kind == Moved && !(p.current.Some? && SeenAt(seen, Key(p.current.value))) {
        assert p in [p];
        return false;
      }
      Beat();
      ok := !world.faults(tick);
      if ok {
        StoreChange(root, catalog[root] - {Key(p.missing.value)}, GaveUp(root, p.missing.value));
      }
    }

    /** The loop over the jobs that left a path. */
    method GiveUpPaths(root: nat, batch: seq<Prepared>, seen: seq<Place>) returns (ok: bool, marked: nat)
      requires Valid() && root in catalog
      modifies this`tick, this`catalog, this`history, jobs
      ensures Steady() && OnlyOvertakes(old(jobs.fate), jobs.fate) && old(tick) <= tick
      ensures marked <= |batch| && (ok ==> marked == |batch|)
      ensures GivenUpTo(old(catalog), catalog, old(history), history, root, batch, marked, seen)
      ensures !ok ==> marked < |batch| && (!DestinationsFirst([batch[marked]], seen) || FaultIn(world, old(tick), tick))
    {
      marked := 0;
      NoneGivenUp(catalog, history, root, batch, seen);
      while marked < |batch|
        invariant marked <= |batch| && Steady() && OnlyOvertakes(old(jobs.fate), jobs.fate) && old(tick) <= tick
        invariant GivenUpTo(old(catalog), catalog, old(history), history, root, batch, marked, seen)
      {
        ok := GiveUpNext(root, batch, marked, seen, old(catalog), old(history));
        if !ok {
          return;
        }
        marked := marked + 1;
      }
      ok := true;
    }

    /** One turn of the loop. */
    method GiveUpNext(root: nat, batch: seq<Prepared>, n: nat, seen: seq<Place>, ghost first: map<nat, Places>,
                      ghost past: seq<Change>)
      returns (ok: bool)
      requires Valid() && n < |batch| && GivenUpTo(first, catalog, past, history, root, batch, n, seen)
      modifies this`tick, this`catalog, this`history, jobs
      ensures Steady() && OnlyOvertakes(old(jobs.fate), jobs.fate) && old(tick) <= tick
      ensures GivenUpTo(first, catalog, past, history, root, batch, if ok then n + 1 else n, seen)
      ensures !ok ==> !DestinationsFirst([batch[n]], seen) || FaultIn(world, old(tick), tick)
    {
      ok := GiveUpPath(root, batch[n], seen);
      if ok {
        GivenUpNext(first, old(catalog), catalog, past, old(history), history, root, batch, n, seen);
      }
    }

    /** The catalog part of `reconcile_prepared_jobs`. */
    method CatalogBatch(root: nat, batch: seq<Prepared>)
      returns (ok: bool, stored: Option<seq<Place>>, marked: nat, cancelled: bool)
      requires Valid() && BatchSound(batch) && OfRoot(batch, root)
      modifies this`tick, this`overflowed, this`catalog, this`history, jobs
      ensures Steady() && OnlyOvertakes(old(jobs.fate), jobs.fate) && old(tick) <= tick
      ensures CatalogedInOrder(old(catalog), catalog, root, batch, stored, marked, looks)
      ensures Extends(old(history), history, root, batch, stored, marked, looks)
      ensures ok ==> stored.Some? && marked == |batch|
      ensures !ok ==> stored.None? || !DestinationsFirst(batch, stored.value) || FaultIn(world, old(tick), tick)
    {
      stored, cancelled := StoreScan(root, batch);
      marked := 0;
      if stored.None? {
        NothingWritten(history, root, batch, 0, looks);
        return false, stored, 0, cancelled;
      }
      ghost var scanned := catalog;
      ok, marked := GiveUpPaths(root, batch, stored.value);
      if !ok {
        assert batch[marked] in batch;
      }
      HistoryTogether(old(history), root, batch, stored.value, marked, looks, old(tick) + 1, history);
      ScanThenGiveUp(old(catalog), scanned, catalog, root, batch, stored.value, marked, looks);
    }

    /** `reconcile_prepared_jobs` before its pipeline: stage, catalog, link. */
    method CatalogPrepared(root: nat, batch: seq<Prepared>, now: int)
      returns (ok: bool, stored: Option<seq<Place>>, marked: nat, cancelled: bool)
      requires Valid() && BatchSound(batch) && OfRoot(batch, root)
      modifies this`tick, this`overflowed, this`catalog, this`history, jobs
      ensures Steady() && OnlyOvertakes(old(jobs.fate), jobs.fate) && old(tick) <= tick
      ensures CatalogedInOrder(old(catalog), catalog, root, batch, stored, marked, looks)
      ensures Extends(old(history), history, root, batch, stored, marked, looks)
      ensures ok ==> stored.Some? && marked == |batch|
      ensures !ok ==> FaultIn(world, old(tick), tick) || (exists p :: p in batch && !Holds(p.claim))
                      || stored.None? || !DestinationsFirst(batch, stored.value)
    {
      stored, marked, cancelled := None, 0, false;
      NothingWritten(history, root, batch, 0, looks);
      ok := AdvanceAll(batch, Cataloging, now);
      if ok {
        ok, stored, marked, cancelled := CatalogBatch(root, batch);
      }
      if ok {
        ok := Link(batch);
      }
    }

    /** `reconcile_prepared_jobs`: without a fault, a cancellation or a lost claim, and with a
        scan that has the destination of every move, each job is completed or put to review. */
    method ReconcilePrepared(root: nat, batch: seq<Prepared>, now: int)
      returns (ok: bool, stored: Option<seq<Place>>, marked: nat, cancelled: bool)
      requires Valid() && BatchSound(batch) && OfRoot(batch, root)
      modifies this`tick, this`overflowed, this`catalog, this`history, jobs
      ensures Steady() && CatalogedInOrder(old(catalog), catalog, root, batch, stored, marked, looks)
      ensures Extends(old(history), history, root, batch, stored, marked, looks)
      ensures ok ==> AllEnded(batch) && stored.Some? && marked == |batch|
      ensures ok && !cancelled && !CancelledIn(world, old(tick), tick) ==>
                Ending(old(jobs.fate), jobs.fate, jobs.rows, batch, |batch|, Completes(stored.value))
      ensures !ok ==> FaultIn(world, old(tick), tick) || (exists p :: p in batch && !Holds(p.claim))
                      || stored.None? || !DestinationsFirst(batch, stored.value)
    {
      ok, stored, marked, cancelled := CatalogPrepared(root, batch, now);
      if ok {
        ghost var fate, at := jobs.fate, tick;
        ok := Pipeline(batch, stored.value, cancelled, now);
        if ok && !cancelled && !CancelledIn(world, at, tick) {
          EndingSince(old(jobs.fate), fate, jobs.fate, jobs.rows, batch, Completes(stored.value));
        }
      }
    }

    /** `mark_root_reconciled` and `link_monitoring_job_to_reconciliation_scan`. */
    method Link(batch: seq<Prepared>) returns (ok: bool)
      requires Valid()
      modifies this`tick, jobs
      ensures Steady() && OnlyOvertakes(old(jobs.fate), jobs.fate) && tick == old(tick) + 1 && ok == !world.faults(tick)
    {
      Beat();
      ok := !world.faults(tick);
    }

    // ---- the cycle

    /** A job of an enabled root that waits for nothing any more. */
    ghost predicate IsDue(id: nat, now: int)
      reads this, jobs
    {
      && id in jobs.rows && Due(jobs.rows[id], now) && jobs.rows[id].root in settings.roots
      && jobs.rows[id].debounceReady <= now && (jobs.rows[id].retryAfter.None? || jobs.rows[id].retryAfter.value <= now)
    }

    /** `list_due_monitoring_jobs_for_workspace`: due jobs, and all of them when there are
        fewer than the limit. */
    method DueIds(now: int, limit: nat) returns (ids: seq<nat>)
      requires Valid()
      ensures |ids| <= limit && NoTwice(ids) && forall id | id in ids :: IsDue(id, now)
      ensures |ids| < limit ==> forall id | IsDue(id, now) :: id in ids
    {
      ids := [];
      var left := jobs.rows.Keys;
      while left != {} && |ids| < limit
        invariant left <= jobs.rows.Keys && |ids| <= limit && NoTwice(ids)
        invariant forall id | id in ids :: IsDue(id, now) && id !in left
        invariant forall id | IsDue(id, now) :: id in ids || id in left
        decreases left
      {
        var id :| id in left;
        var job := jobs.rows[id];
        left := left - {id};
        if Due(job, now) && job.root in settings.roots && job.debounceReady <= now
           && (job.retryAfter.None? || job.retryAfter.value <= now) {
          ids := ids + [id];
        }
      }
    }

    /** Claims of different jobs and paths, whose samples are those of the last looks. */
    ghost predicate ClaimsSound(claims: seq<ClaimedJob>)
      reads this, jobs
    {
      && AllApart(claims)
      && (forall c | c in claims :: Claimed(c) && LookedAt(looks, c.id, c.job))
      && OnRecord(jobs.claimed, claims)
    }

    /** `claim_monitoring_jobs`: each of the due jobs. */
    method ClaimAll(ids: seq<nat>, now: int) returns (claims: seq<ClaimedJob>)
      requires Valid() && NoTwice(ids) && StillDue(jobs.rows, ids, 0, now)
      modifies jobs
      ensures Valid() && Claiming(old(jobs.fate), jobs.fate, jobs.owner, looks, claims) && ClaimsOf(claims, ids, |ids|)
      ensures RowsAreClaimed(jobs.rows, claims) && OnRecord(jobs.claimed, claims)
    {
      claims := [];
      for i := 0 to |ids|
        invariant Valid() && StillDue(jobs.rows, ids, i, now) && ClaimsOf(claims, ids, i)
        invariant Claiming(old(jobs.fate), jobs.fate, jobs.owner, looks, claims) && RowsAreClaimed(jobs.rows, claims)
        invariant OnRecord(jobs.claimed, claims)
      {
        claims := ClaimOne(ids, i, now, claims, old(jobs.fate));
      }
    }

    /** One claim of the batch. */
    method ClaimOne(ids: seq<nat>, i: nat, now: int, claims: seq<ClaimedJob>, ghost first: map<nat, Fate>)
      returns (more: seq<ClaimedJob>)
      requires Valid() && NoTwice(ids) && i < |ids| && StillDue(jobs.rows, ids, i, now) && ClaimsOf(claims, ids, i)
      requires Claiming(first, jobs.fate, jobs.owner, looks, claims) && RowsAreClaimed(jobs.rows, claims)
      requires OnRecord(jobs.claimed, claims)
      modifies jobs
      ensures Valid() && StillDue(jobs.rows, ids, i + 1, now) && ClaimsOf(more, ids, i + 1)
      ensures RowsAreClaimed(jobs.rows, more) && OnRecord(jobs.claimed, more)
      ensures Claiming(first, jobs.fate, jobs.owner, looks, more)
    {
      var claim := jobs.Claim(ids[i], now);
      ClaimKeepsSamples(old(jobs.rows), jobs.rows, claim.value, now, looks);
      ClaimedNext(old(jobs.rows), jobs.rows, claims, claim.value, ids, i, now);
      ClaimAdded(first, old(jobs.fate), jobs.fate, old(jobs.owner), jobs.owner, looks, claims, claim.value);
      RecordAdded(old(jobs.claimed), claims, claim.value);
      more := claims + [claim.value];
    }

    /** The due jobs, up to the limit, are claimed. */
    method ClaimDue(now: int) returns (claims: seq<ClaimedJob>)
      requires Valid()
      modifies jobs
      ensures Valid() && ClaimsSound(claims) && Claiming(old(jobs.fate), jobs.fate, jobs.owner, looks, claims)
      ensures |claims| <= BatchLimit() && forall c | c in claims :: old(IsDue(c.id, now))
      ensures |claims| < BatchLimit() ==> forall id | old(IsDue(id, now)) :: HasClaim(claims, id)
    {
      var ids := DueIds(now, BatchLimit());
      forall j | 0 <= j < |ids| ensures ids[j] in jobs.rows && Due(jobs.rows[ids[j]], now) {
        assert ids[j] in ids && IsDue(ids[j], now);
      }
      claims := ClaimAll(ids, now);
      ClaimsAreApart(jobs.rows, claims);
      ClaimsCover(ids, claims);
    }

    /** One turn of the loop. */
    method ScreenNext(claims: seq<ClaimedJob>, i: nat, batches: map<nat, seq<Prepared>>, now: int)
      returns (ok: bool, more: map<nat, seq<Prepared>>)
      requires Valid() && i < |claims| && AllApart(claims)
      requires ScreenedUpTo(claims, i, batches, jobs.fate, jobs.owner, looks) && OnRecord(jobs.claimed, claims)
      modifies this`tick, this`looks, this`overflowed, jobs
      ensures Steady() && (ok ==> ScreenedUpTo(claims, i + 1, more, jobs.fate, jobs.owner, looks))
    {
      assert claims[i] in claims;
      more := batches;
      var kept;
      ok, kept := Screen(claims[i], now);
      if ok {
        more := WithKept(batches, claims[i].job.root, kept);
        ScreenedOneMore(claims, i, batches, old(jobs.fate), jobs.fate, jobs.owner, old(looks), looks, kept);
      }
    }

    /** The loop over the claimed jobs. */
    method ScreenAll(claims: seq<ClaimedJob>, now: int) returns (ok: bool, batches: map<nat, seq<Prepared>>)
      requires Valid() && ClaimsSound(claims)
      modifies this`tick, this`looks, this`overflowed, jobs
      ensures Steady()
      ensures ok ==> AccountedFor(claims, |claims|, batches, jobs.fate) && AllPreparedIn(batches, jobs.fate, jobs.owner, looks)
    {
      batches := map[];
      for i := 0 to |claims|
        invariant Steady() && ScreenedUpTo(claims, i, batches, jobs.fate, jobs.owner, looks)
      {
        ok, batches := ScreenNext(claims, i, batches, now);
        if !ok {
          return;
        }
      }
      ok := true;
    }

    /** One batch; if it fails, it is rescheduled as a whole. */
    method ReconcileBatch(root: nat, batch: seq<Prepared>, now: int) returns (ok: bool)
      requires Valid() && BatchSound(batch) && OfRoot(batch, root)
      modifies this`tick, this`overflowed, this`catalog, this`history, jobs
      ensures Steady() && (ok ==> AllEnded(batch)) && old(history) <= history
    {
      var stored, marked, cancelled;
      ok, stored, marked, cancelled := ReconcilePrepared(root, batch, now);
      if !ok {
        ok := CloseAll(batch, Retries, now);
      }
      ok := ok && !world.faults(tick);
    }

    /** The loop over the batches. */
    method ReconcileAll(batches: map<nat, seq<Prepared>>, now: int) returns (ok: bool)
      requires Valid() && AllPreparedIn(batches, jobs.fate, jobs.owner, looks)
      modifies this`tick, this`overflowed, this`catalog, this`history, jobs
      ensures Steady() && (ok ==> EndedExcept(batches, {}, jobs.fate)) && old(history) <= history
    {
      var left := batches.Keys;
      while left != {}
        invariant Steady() && left <= batches.Keys && AllPreparedIn(batches, jobs.fate, jobs.owner, looks)
        invariant EndedExcept(batches, left, jobs.fate) && old(history) <= history
        decreases left
      {
        var root :| root in left;
        ghost var fate := jobs.fate;
        ok := ReconcileBatch(root, batches[root], now);
        if !ok {
          return;
        }
        OneBatchEnded(batches, left, root, fate, jobs.fate);
        StillPrepared(batches, fate, jobs.fate, jobs.owner, looks);
        left := left - {root};
      }
      ok := true;
    }

    function BatchLimit(): nat {
      if settings.automatic then AUTOMATIC_JOB_BATCH else MAXIMUM_JOB_BATCH
    }

    /** `process_due_monitoring_jobs`: it claims the due jobs, up to the limit. On normal return
        each claim it made has ended once, by its own release or because an event for its
        path overtook it. */
    method ProcessDue(now: int) returns (ok: bool, ghost claims: seq<ClaimedJob>)
      requires Valid()
      modifies this, jobs
      ensures Valid() && Settles(old(jobs.fate), jobs.fate) && old(history) <= history
      ensures !old(world.faults(tick)) ==> |claims| <= BatchLimit() && forall c | c in claims :: old(IsDue(c.id, now))
      ensures !old(world.faults(tick)) && |claims| < BatchLimit() ==> forall id | old(IsDue(id, now)) :: HasClaim(claims, id)
      ensures ok ==> ClaimsEnded(old(jobs.fate), jobs.fate, claims)
    {
      claims := [];
      if world.faults(tick) {
        return false, [];
      }
      var claimed := ClaimDue(now);
      claims := claimed;
      ok := ProcessClaims(claimed, now, old(jobs.fate));
    }

    /** The two loops over what was claimed. */
    method ProcessClaims(claims: seq<ClaimedJob>, now: int, ghost first: map<nat, Fate>) returns (ok: bool)
      requires Valid() && ClaimsSound(claims) && Claiming(first, jobs.fate, jobs.owner, looks, claims)
      modifies this, jobs
      ensures Valid() && Settles(first, jobs.fate) && old(history) <= history
      ensures ok ==> ClaimsEnded(first, jobs.fate, claims)
    {
      var batches;
      ok, batches := ScreenAll(claims, now);
      ghost var fate := jobs.fate;
      if ok {
        ok := ReconcileAll(batches, now);
      }
      if ok {
        AllAccounted(claims, batches, fate, jobs.fate);
        AllClaimsEnded(first, old(jobs.fate), jobs.fate, old(jobs.owner), old(looks), claims);
      }
    }

    /** Over any run of cycles: whatever the catalog holds was put there by a scan that was
        stored, and under a job's own path the job's last two looks at that path, before the
        scan, saw it as it is cataloged. */
    lemma CatalogIsStable(root: nat, key: Path)
      requires Valid() && key in PlacesOf(catalog, root)
      ensures WasPut(history, root, PlacesOf(catalog, root)[key], world)
    {
      CatalogedWasPut(history, root, key, world, tick);
    }

    /** The part of `run_monitoring_cycle` that claims jobs, with its recovery. If no job is
        claimed before it, none is after it, whether it ended normally or with an error,
        unless the recovery itself failed. */
    method RunCycle(paused: bool, now: int) returns (r: CycleResult)
      requires Valid()
      modifies this, jobs
      ensures Valid() && Settles(old(jobs.fate), jobs.fate) && old(history) <= history
      ensures r == Idle <==> paused || world.cancelled(old(tick) + 1)
      ensures r == RecoveryFailed ==> world.faults(tick)
      ensures r == CycleResult.Failed ==> NoneProcessing(jobs.rows)
      ensures r != RecoveryFailed && old(NoneProcessing(jobs.rows)) ==> NoneProcessing(jobs.rows)
    {
      NoneHeldNoneProcessing(jobs.rows, jobs.fate, jobs.owner);
      var cancelled := IsCancelled();
      if paused || cancelled {
        NoneHeldNoneProcessing(jobs.rows, jobs.fate, jobs.owner);
        return Idle;
      }
      var ok, claims := ProcessDue(now);
      if !ok {
        Beat();
        if world.faults(tick) {
          return RecoveryFailed;
        }
        RecoveryKeepsLooks(jobs.rows, now + RECHECK_MS, looks);
        jobs.Recover(now + RECHECK_MS);
      }
      NoneHeldNoneProcessing(jobs.rows, jobs.fate, jobs.owner);
      r := if ok then Done else CycleResult.Failed;
    }
  }

  datatype CycleResult = Idle | Done | Failed | RecoveryFailed

  ghost predicate NoTwice(ids: seq<nat>) {
    forall i, j | 0 <= i < j < |ids| :: ids[i] != ids[j]
  }

  ghost predicate InABatch(batches: map<nat, seq<Prepared>>, claim: ClaimedJob) {
    exists r, p :: r in batches && p in batches[r] && p.claim == claim
  }

  function BatchOf(batches: map<nat, seq<Prepared>>, root: nat): seq<Prepared> {
    if root in batches then batches[root] else []
  }

  /** The batches hold jobs that were claimed, no two of one batch alike. */
  ghost predicate BatchesOf(claims: seq<ClaimedJob>, batches: map<nat, seq<Prepared>>) {
    && (forall r, p | r in batches && p in batches[r] :: p.claim in claims && BelongsTo(p, r))
    && (forall r | r in batches :: ClaimsApart(batches[r]))
  }

  ghost predicate PreparedSound(p: Prepared, fate: map<nat, Fate>, owner: map<nat, nat>, looks: Looks) {
    && p.claim.token in fate && p.claim.token in owner && owner[p.claim.token] == p.claim.id
    && (p.current.Some? ==> TwiceSeen(looks, p.claim))
  }

  ghost predicate AllPrepared(batch: seq<Prepared>, fate: map<nat, Fate>, owner: map<nat, nat>, looks: Looks) {
    ClaimsApart(batch) && OwnPathsApart(batch) && forall p | p in batch :: PreparedSound(p, fate, owner, looks)
  }

  /** The catalog is too large to look for duplicates in. */
  ghost predicate IsCrowded(places: Places, limit: nat, batch: seq<Prepared>) {
    (exists p :: p in batch && p.claim.job.sample.Some?) && |places| >= limit
  }

  ghost predicate BatchEnded(batch: seq<Prepared>, fate: map<nat, Fate>) {
    forall p | p in batch :: HasEnded(fate, p.claim)
  }

  ghost predicate EndedExcept(batches: map<nat, seq<Prepared>>, left: set<nat>, fate: map<nat, Fate>) {
    forall r | r in batches && r !in left :: BatchEnded(batches[r], fate)
  }

  lemma OneBatchEnded(batches: map<nat, seq<Prepared>>, left: set<nat>, root: nat, before: map<nat, Fate>, after: map<nat, Fate>)
    requires EndedExcept(batches, left, before) && EndsOnly(before, after)
    requires root in batches && BatchEnded(batches[root], after)
    ensures EndedExcept(batches, left - {root}, after)
  {
    forall r | r in batches && r !in left - {root} ensures BatchEnded(batches[r], after) {
      if r != root {
        assert BatchEnded(batches[r], before);
      }
    }
  }

  /** What ended while screening or is in a batch has ended with the batches. */
  lemma AllAccounted(claims: seq<ClaimedJob>, batches: map<nat, seq<Prepared>>, before: map<nat, Fate>, after: map<nat, Fate>)
    requires AccountedFor(claims, |claims|, batches, before) && EndsOnly(before, after) && EndedExcept(batches, {}, after)
    ensures forall c | c in claims :: HasEnded(after, c)
  {
    forall c | c in claims ensures HasEnded(after, c) {
      var j :| 0 <= j < |claims| && claims[j] == c;
      if !HasEnded(before, c) {
        var r, p :| r in batches && p in batches[r] && p.claim == c;
        assert BatchEnded(batches[r], after);
      }
    }
  }

  /** Every claim screened so far has ended or is in a batch. */
  ghost predicate AccountedFor(claims: seq<ClaimedJob>, i: nat, batches: map<nat, seq<Prepared>>, fate: map<nat, Fate>)
    requires i <= |claims|
  {
    forall j | 0 <= j < i :: HasEnded(fate, claims[j]) || InABatch(batches, claims[j])
  }

  ghost predicate AllPreparedIn(batches: map<nat, seq<Prepared>>, fate: map<nat, Fate>, owner: map<nat, nat>, looks: Looks) {
    forall r | r in batches :: AllPrepared(batches[r], fate, owner, looks) && OfRoot(batches[r], r)
  }

  /** What the loop over the claimed jobs keeps. */
  ghost predicate ScreenedUpTo(claims: seq<ClaimedJob>, i: nat, batches: map<nat, seq<Prepared>>, fate: map<nat, Fate>,
                               owner: map<nat, nat>, looks: Looks)
    requires i <= |claims|
  {
    && AccountedFor(claims, i, batches, fate) && BatchesOf(claims[..i], batches) && AllPreparedIn(batches, fate, owner, looks)
    && (forall c | c in claims :: c.token in fate && c.token in owner && owner[c.token] == c.id)
    && (forall j | i <= j < |claims| :: LookedAt(looks, claims[j].id, claims[j].job))
  }

  function WithKept(batches: map<nat, seq<Prepared>>, root: nat, kept: Option<Prepared>): map<nat, seq<Prepared>> {
    if kept.Some? then batches[root := BatchOf(batches, root) + [kept.value]] else batches
  }

  lemma ScreenedOneMore(claims: seq<ClaimedJob>, i: nat, batches: map<nat, seq<Prepared>>, before: map<nat, Fate>,
                        after: map<nat, Fate>, owner: map<nat, nat>, looks: Looks, looks': Looks, kept: Option<Prepared>)
    requires i < |claims| && AllApart(claims) && ScreenedUpTo(claims, i, batches, before, owner, looks)
    requires EndsOnly(before, after) && AtMostOneMore(looks, looks', claims[i].id)
    requires kept.None? ==> HasEnded(after, claims[i])
    requires kept.Some? ==> kept.value.claim == claims[i]
                            && (kept.value.current.Some? ==> TwiceSeen(looks', claims[i]) && kept.value.current == claims[i].job.after)
    ensures ScreenedUpTo(claims, i + 1, WithKept(batches, claims[i].job.root, kept), after, owner, looks')
  {
    var root := claims[i].job.root;
    assert claims[i] in claims && claims[..i + 1] == claims[..i] + [claims[i]];
    OthersBefore(claims, i);
    LooksElsewhere(batches, claims[..i], claims[i].id, looks, looks');
    PreparedStays(batches, before, after, owner, looks, looks');
    BatchesWider(batches, claims[..i], claims[i]);
    if kept.Some? {
      BatchedNext(batches, claims[..i], root, kept.value, after, owner, looks');
    }
    AccountedNext(claims, i, batches, WithKept(batches, root, kept), before, after);
    forall j | i < j < |claims| ensures LookedAt(looks', claims[j].id, claims[j].job) {
      assert ApartJobs(claims[i], claims[j]) && LookedAt(looks, claims[j].id, claims[j].job);
    }
  }

  lemma AccountedNext(claims: seq<ClaimedJob>, i: nat, batches: map<nat, seq<Prepared>>, more: map<nat, seq<Prepared>>,
                      before: map<nat, Fate>, after: map<nat, Fate>)
    requires i < |claims| && AccountedFor(claims, i, batches, before) && EndsOnly(before, after)
    requires HasEnded(after, claims[i]) || InABatch(more, claims[i])
    requires forall c | InABatch(batches, c) :: InABatch(more, c)
    ensures AccountedFor(claims, i + 1, more, after)
  {
    forall j | 0 <= j <= i ensures HasEnded(after, claims[j]) || InABatch(more, claims[j]) {
      if j < i {
        assert HasEnded(before, claims[j]) || InABatch(batches, claims[j]);
      }
    }
  }

  lemma PreparedStays(batches: map<nat, seq<Prepared>>, before: map<nat, Fate>, after: map<nat, Fate>, owner: map<nat, nat>,
                      looks: Looks, looks': Looks)
    requires AllPreparedIn(batches, before, owner, looks) && after.Keys == before.Keys
    requires forall r, p | r in batches && p in batches[r] && p.current.Some? :: TwiceSeen(looks', p.claim)
    ensures AllPreparedIn(batches, after, owner, looks')
  {
    forall r, p | r in batches && p in batches[r] ensures PreparedSound(p, after, owner, looks') {
      assert AllPrepared(batches[r], before, owner, looks) && PreparedSound(p, before, owner, looks);
    }
    forall r | r in batches ensures AllPrepared(batches[r], after, owner, looks') && OfRoot(batches[r], r) {
      assert AllPrepared(batches[r], before, owner, looks);
    }
  }

  lemma StillPrepared(batches: map<nat, seq<Prepared>>, before: map<nat, Fate>, after: map<nat, Fate>, owner: map<nat, nat>,
                      looks: Looks)
    requires AllPreparedIn(batches, before, owner, looks) && after.Keys == before.Keys
    ensures AllPreparedIn(batches, after, owner, looks)
  {
    forall r, p | r in batches && p in batches[r] && p.current.Some? ensures TwiceSeen(looks, p.claim) {
      assert AllPrepared(batches[r], before, owner, looks) && PreparedSound(p, before, owner, looks);
    }
    PreparedStays(batches, before, after, owner, looks, looks);
  }

  lemma PreparedIsStable(looks: Looks, root: nat, batch: seq<Prepared>, seen: seq<Place>, fate: map<nat, Fate>, owner: map<nat, nat>)
    requires AllPrepared(batch, fate, owner, looks) && NoDrift(batch, seen) && OfRoot(batch, root)
    ensures StoredStably(root, batch, seen, looks)
  {
    forall p | p in batch && p.current.Some? ensures TwiceSeen(looks, p.claim) {
      assert PreparedSound(p, fate, owner, looks);
    }
    OwnPathsAreStable(looks, root, batch, seen);
  }

  lemma BatchesWider(batches: map<nat, seq<Prepared>>, claims: seq<ClaimedJob>, claim: ClaimedJob)
    requires BatchesOf(claims, batches)
    ensures BatchesOf(claims + [claim], batches)
  {
  }

  lemma BatchedNext(batches: map<nat, seq<Prepared>>, claims: seq<ClaimedJob>, root: nat, kept: Prepared, fate: map<nat, Fate>,
                    owner: map<nat, nat>, looks: Looks)
    requires BatchesOf(claims, batches) && PreparedSound(kept, fate, owner, looks) && BelongsTo(kept, root)
    requires forall c | c in claims :: ApartJobs(c, kept.claim)
    requires AllPreparedIn(batches, fate, owner, looks)
    ensures var after := batches[root := BatchOf(batches, root) + [kept]];
      && BatchesOf(claims + [kept.claim], after) && InABatch(after, kept.claim)
      && AllPreparedIn(after, fate, owner, looks)
      && (forall c | InABatch(batches, c) :: InABatch(after, c))
  {
    var batch := BatchOf(batches, root);
    var after := batches[root := batch + [kept]];
    assert kept in after[root];
    BatchGrows(batches, claims, root, kept);
    forall p | p in batch + [kept] ensures PreparedSound(p, fate, owner, looks) && p.claim in claims + [kept.claim] {
      if p != kept {
        assert p in batches[root];
      }
    }
    forall c | InABatch(batches, c) ensures InABatch(after, c) {
      var r, p :| r in batches && p in batches[r] && p.claim == c;
      assert p in after[r];
    }
  }

  /** One more job of the root keeps claims and own paths apart. */
  lemma BatchGrows(batches: map<nat, seq<Prepared>>, claims: seq<ClaimedJob>, root: nat, kept: Prepared)
    requires BatchesOf(claims, batches) && BelongsTo(kept, root) && OwnPathsApart(BatchOf(batches, root))
    requires forall c | c in claims :: ApartJobs(c, kept.claim)
    ensures ClaimsApart(BatchOf(batches, root) + [kept]) && OwnPathsApart(BatchOf(batches, root) + [kept])
  {
    var batch := BatchOf(batches, root);
    forall i | 0 <= i < |batch|
      ensures batch[i].claim.id != kept.claim.id
      ensures batch[i].current.Some? && kept.current.Some? ==> Key(batch[i].current.value) != Key(kept.current.value)
    {
      assert batch[i] in batches[root] && batch[i].claim in claims && BelongsTo(batch[i], root);
      assert ApartJobs(batch[i].claim, kept.claim);
    }
  }

  ghost predicate StillDue(rows: Rows, ids: seq<nat>, i: nat, now: int) {
    forall j | i <= j < |ids| :: ids[j] in rows && Due(rows[ids[j]], now)
  }

  lemma ClaimKeepsSamples(before: Rows, after: Rows, claim: ClaimedJob, now: int, looks: Looks)
    requires Claims(before, after, claim, now) && LooksMatch(before, looks)
    ensures LooksMatch(after, looks) && LookedAt(looks, claim.id, claim.job)
  {
    SampleStays(before, after, claim.id, looks);
    assert LookedAt(looks, claim.id, before[claim.id]);
  }

  lemma ClaimedNext(before: Rows, after: Rows, claims: seq<ClaimedJob>, claim: ClaimedJob, ids: seq<nat>, i: nat, now: int)
    requires i < |ids| && NoTwice(ids) && StillDue(before, ids, i, now) && ClaimsOf(claims, ids, i) && claim.id == ids[i]
    requires RowsAreClaimed(before, claims) && Claims(before, after, claim, now)
    ensures StillDue(after, ids, i + 1, now) && ClaimsOf(claims + [claim], ids, i + 1)
    ensures RowsAreClaimed(after, claims + [claim]) && forall c | c in claims :: c.id != claim.id
  {
    NoneWithId(claims, ids, i);
    DueNext(before, after, ids, i, now);
  }

  /** Each of the jobs is on record as it was when it was claimed. */
  ghost predicate OnRecord(claimed: map<nat, Job>, claims: seq<ClaimedJob>) {
    forall c | c in claims :: c.token in claimed && claimed[c.token] == c.job
  }

  lemma RecordAdded(claimed: map<nat, Job>, claims: seq<ClaimedJob>, claim: ClaimedJob)
    requires OnRecord(claimed, claims) && claim.token !in claimed
    ensures OnRecord(claimed[claim.token := claim.job], claims + [claim])
  {
  }

  lemma DueNext(before: Rows, after: Rows, ids: seq<nat>, i: nat, now: int)
    requires i < |ids| && NoTwice(ids) && StillDue(before, ids, i, now)
    requires forall id | id in before && id != ids[i] :: id in after && after[id] == before[id]
    ensures StillDue(after, ids, i + 1, now)
  {
  }

  /** The first `n` ids were claimed, in order. */
  ghost predicate ClaimsOf(claims: seq<ClaimedJob>, ids: seq<nat>, n: nat) {
    |claims| == n <= |ids| && forall j | 0 <= j < n :: claims[j].id == ids[j]
  }

  lemma NoneWithId(claims: seq<ClaimedJob>, ids: seq<nat>, n: nat)
    requires n < |ids| && NoTwice(ids) && ClaimsOf(claims, ids, n)
    ensures forall c | c in claims :: c.id != ids[n]
  {
  }

  lemma OthersBefore(claims: seq<ClaimedJob>, i: nat)
    requires i < |claims| && AllApart(claims)
    ensures forall c | c in claims[..i] :: ApartJobs(c, claims[i])
  {
  }

  ghost predicate HasClaim(claims: seq<ClaimedJob>, id: nat) {
    exists c :: c in claims && c.id == id
  }

  /** The claims since `first`: held, each of its own job, and the only new ones. */
  ghost predicate Claiming(first: map<nat, Fate>, fate: map<nat, Fate>, owner: map<nat, nat>, looks: Looks,
                           claims: seq<ClaimedJob>)
  {
    && Settles(first, fate)
    && (forall i, j | 0 <= i < j < |claims| :: claims[i].id != claims[j].id)
    && (forall c | c in claims :: NewClaim(first, fate, owner, looks, c))
    && (forall k | k in fate && k !in first :: exists c :: c in claims && c.token == k)
  }

  ghost predicate NewClaim(first: map<nat, Fate>, fate: map<nat, Fate>, owner: map<nat, nat>, looks: Looks,
                           c: ClaimedJob)
  {
    && c.token !in first && c.token in fate && fate[c.token] == Held && c.token in owner && owner[c.token] == c.id
    && LookedAt(looks, c.id, c.job)
  }

  lemma ClaimAdded(first: map<nat, Fate>, before: map<nat, Fate>, after: map<nat, Fate>, owner: map<nat, nat>,
                   owner': map<nat, nat>, looks: Looks, claims: seq<ClaimedJob>, claim: ClaimedJob)
    requires Claiming(first, before, owner, looks, claims) && Settles(before, after) && owner.Keys == before.Keys
    requires claim.token !in before && after.Keys == before.Keys + {claim.token} && after[claim.token] == Held
    requires owner' == owner[claim.token := claim.id] && LookedAt(looks, claim.id, claim.job)
    requires forall k | k in before && before[k] == Held && owner[k] != claim.id :: after[k] == Held
    requires forall c | c in claims :: c.id != claim.id
    ensures Claiming(first, after, owner', looks, claims + [claim])
  {
    var more := claims + [claim];
    forall c | c in more ensures NewClaim(first, after, owner', looks, c) {
      if c != claim {
        assert c in claims && NewClaim(first, before, owner, looks, c);
      }
    }
    forall k | k in after && k !in first ensures exists c :: c in more && c.token == k {
      if k == claim.token {
        assert claim in more;
      } else {
        var c :| c in claims && c.token == k;
        assert c in more;
      }
    }
  }

  /** Every claim since `first` ended once. */
  ghost predicate ClaimsEnded(first: map<nat, Fate>, fate: map<nat, Fate>, claims: seq<ClaimedJob>) {
    && (forall c | c in claims :: c.token in fate && fate[c.token] in {Released, Overtaken})
    && (forall k | k in fate && k !in first :: fate[k] in {Released, Overtaken})
  }

  lemma AllClaimsEnded(first: map<nat, Fate>, before: map<nat, Fate>, after: map<nat, Fate>, owner: map<nat, nat>,
                       looks: Looks, claims: seq<ClaimedJob>)
    requires Claiming(first, before, owner, looks, claims) && EndsOnly(before, after)
    requires forall c | c in claims :: c.token in after && after[c.token] != Held
    ensures ClaimsEnded(first, after, claims)
  {
    forall c | c in claims ensures c.token in after && after[c.token] in {Released, Overtaken} {
      assert NewClaim(first, before, owner, looks, c);
    }
    forall k | k in after && k !in first ensures after[k] in {Released, Overtaken} {
      var c :| c in claims && c.token == k;
    }
  }

  lemma ClaimsCover(ids: seq<nat>, claims: seq<ClaimedJob>)
    requires ClaimsOf(claims, ids, |ids|)
    ensures forall id | id in ids :: HasClaim(claims, id)
    ensures forall c | c in claims :: c.id in ids
  {
    forall id | id in ids ensures HasClaim(claims, id) {
      var i :| 0 <= i < |ids| && ids[i] == id;
      assert claims[i] in claims;
    }
  }

  /** Screening one job leaves the looks of the jobs in the batches alone. */
  lemma LooksElsewhere(batches: map<nat, seq<Prepared>>, done: seq<ClaimedJob>, id: nat,
                       before: Looks, after: Looks)
    requires forall c | c in done :: c.id != id
    requires forall r, p | r in batches && p in batches[r] :: p.claim in done
    requires forall r, p | r in batches && p in batches[r] && p.current.Some? :: TwiceSeen(before, p.claim)
    requires AtMostOneMore(before, after, id)
    ensures forall r, p | r in batches && p in batches[r] && p.current.Some? :: TwiceSeen(after, p.claim)
  {
    forall r, p | r in batches && p in batches[r] && p.current.Some? ensures TwiceSeen(after, p.claim) {
      assert p.claim in done && TwiceSeen(before, p.claim);
    }
  }

  /** The part of the history that one batch writes, with the step of its scan. */
  ghost function BatchHistory(root: nat, batch: seq<Prepared>, stored: Option<seq<Place>>, marked: nat, looks: Looks, at: nat): seq<Change> {
    if stored.None? || marked > |batch| then []
    else [Stored(root, batch, stored.value, looks, at)] + GivenUp(root, batch[..marked])
  }

  ghost predicate Extends(past: seq<Change>, history: seq<Change>, root: nat, batch: seq<Prepared>, stored: Option<seq<Place>>,
                          marked: nat, looks: Looks) {
    exists at: nat :: history == past + BatchHistory(root, batch, stored, marked, looks, at)
  }

  lemma NothingWritten(past: seq<Change>, root: nat, batch: seq<Prepared>, marked: nat, looks: Looks)
    ensures Extends(past, past, root, batch, None, marked, looks)
  {
    assert past == past + BatchHistory(root, batch, None, marked, looks, 0);
  }

  lemma HistoryTogether(past: seq<Change>, root: nat, batch: seq<Prepared>, seen: seq<Place>, marked: nat, looks: Looks, at: nat,
                        history: seq<Change>)
    requires marked <= |batch| && history == (past + [Stored(root, batch, seen, looks, at)]) + GivenUp(root, batch[..marked])
    ensures Extends(past, history, root, batch, Some(seen), marked, looks)
  {
    assert history == past + BatchHistory(root, batch, Some(seen), marked, looks, at);
  }

  /** The paths of the first `n` jobs were given up, moves only after their destination. */
  ghost predicate GivenUpTo(first: map<nat, Places>, catalog: map<nat, Places>, past: seq<Change>, history: seq<Change>, root: nat,
                            batch: seq<Prepared>, n: nat, seen: seq<Place>) {
    && n <= |batch| && root in first && catalog == first[root := Missed(first[root], batch[..n])]
    && history == past + GivenUp(root, batch[..n]) && DestinationsFirst(batch[..n], seen)
  }

  lemma NoneGivenUp(catalog: map<nat, Places>, history: seq<Change>, root: nat, batch: seq<Prepared>, seen: seq<Place>)
    requires root in catalog
    ensures GivenUpTo(catalog, catalog, history, history, root, batch, 0, seen)
  {
    assert batch[..0] == [];
  }

  lemma GivenUpNext(first: map<nat, Places>, before: map<nat, Places>, after: map<nat, Places>, past: seq<Change>,
                    history: seq<Change>, history': seq<Change>, root: nat, batch: seq<Prepared>, n: nat, seen: seq<Place>)
    requires n < |batch| && GivenUpTo(first, before, past, history, root, batch, n, seen) && DestinationsFirst([batch[n]], seen)
    requires after == if batch[n].missing.Some? then before[root := before[root] - {Key(batch[n].missing.value)}] else before
    requires history' == history + if batch[n].missing.Some? then [GaveUp(root, batch[n].missing.value)] else []
    ensures GivenUpTo(first, after, past, history', root, batch, n + 1, seen)
  {
    assert batch[..n + 1] == batch[..n] + [batch[n]];
    assert batch[..n + 1][..n] == batch[..n];
    assert batch[n] in [batch[n]];
    MissedNext(first[root], batch[..n], batch[n]);
  }

  lemma MissedNext(places: Places, front: seq<Prepared>, last: Prepared)
    ensures Missed(places, front + [last])
         == if last.missing.Some? then Missed(places, front) - {Key(last.missing.value)} else Missed(places, front)
  {
    assert (front + [last])[..|front|] == front;
  }

  /** The back-off of `reschedule_monitoring_job`: doubling, at most 64 base delays. */
  function RetryDelay(attempts: nat): int {
    1000 * (if attempts == 0 then 1 else if attempts == 1 then 2 else if attempts == 2 then 4 else if attempts == 3 then 8
            else if attempts == 4 then 16 else if attempts == 5 then 32 else 64)
  }
}
