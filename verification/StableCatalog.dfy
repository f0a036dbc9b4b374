/** What the monitoring knows about the files it catalogs: the looks at them, and the history
    of what was stored. */
module StableCatalog {
  import opened Paths
  import opened FileTree
  import opened JobStore
  import opened Reconciliation
  import opened Catalog

  /** What a look at one file says. */
  datatype Look =
    | Seen(sample: Sample, hiddenOrRemote: bool, tooLarge: bool, readable: bool)
    | RemoteOrLink | NotAFile | Unreadable

  datatype Scan = ScanFailed | Scanned(files: seq<Place>, cancelled: bool)

  /** The answers of the outside world, by step: cancellation, a database fault, events that
      another thread queues meanwhile, looks at a path of a root, scans and listings. */
  datatype World = World(
    cancelled: nat -> bool, faults: nat -> bool, hints: nat -> seq<Event>, looks: (nat, nat, Path) -> Look, scans: nat -> Scan,
    listings: nat -> Option<Listing>)

  /** A look that was recorded: the step of the world at which it was taken, the file it was
      taken at, and what it saw. */
  datatype Glance = Glance(at: nat, root: nat, path: Path, sample: Sample)

  type Looks = map<nat, seq<Glance>>

  // ---- looks

  /** The recorded look was really taken. */
  ghost predicate IsReal(g: Glance, world: World, now: nat) {
    g.at <= now && world.looks(g.at, g.root, g.path).Seen? && world.looks(g.at, g.root, g.path).sample == g.sample
  }

  ghost predicate InSequence(glances: seq<Glance>) {
    forall i, j | 0 <= i < j < |glances| :: glances[i].at < glances[j].at
  }

  /** Looks are recorded one at a time and as they were. */
  ghost predicate LooksReal(looks: Looks, world: World, now: nat) {
    forall id | id in looks :: InSequence(looks[id]) && forall g | g in looks[id] :: IsReal(g, world, now)
  }

  function History(looks: Looks, id: nat): seq<Glance> {
    if id in looks then looks[id] else []
  }

  function Noted(looks: Looks, id: nat, g: Glance): Looks {
    looks[id := History(looks, id) + [g]]
  }

  ghost predicate AtMostOneMore(before: Looks, after: Looks, id: nat) {
    after == before || exists g :: after == Noted(before, id, g)
  }

  lemma NotedIsReal(looks: Looks, world: World, id: nat, g: Glance)
    requires g.at > 0 && LooksReal(looks, world, g.at - 1) && IsReal(g, world, g.at)
    ensures LooksReal(Noted(looks, id, g), world, g.at)
  {
    forall i | i in Noted(looks, id, g)
      ensures InSequence(Noted(looks, id, g)[i]) && forall h | h in Noted(looks, id, g)[i] :: IsReal(h, world, g.at)
    {
      forall k | 0 <= k < |History(looks, i)| ensures IsReal(History(looks, i)[k], world, g.at - 1) {
        assert History(looks, i)[k] in looks[i];
      }
    }
  }

  /** The looks recorded for a job end with the sample of its row, taken at its path. */
  ghost predicate LooksMatch(rows: Rows, looks: Looks) {
    forall id | id in rows && rows[id].sample.Some? :: LookedAt(looks, id, rows[id])
  }

  ghost predicate LookedAt(looks: Looks, id: nat, job: Job) {
    job.sample.Some? ==>
      id in looks && looks[id] != [] && job.after.Some?
      && SawThis(looks[id][|looks[id]| - 1], job.root, job.after.value, job.sample.value)
  }

  ghost predicate SawThis(g: Glance, root: nat, path: Path, sample: Sample) {
    g.root == root && g.path == path && g.sample == sample
  }

  /** The last two looks recorded for a job were at this file and saw this. */
  ghost predicate SeenTwice(looks: Looks, id: nat, root: nat, path: Path, sample: Sample) {
    && id in looks && |looks[id]| >= 2
    && SawThis(looks[id][|looks[id]| - 1], root, path, sample) && SawThis(looks[id][|looks[id]| - 2], root, path, sample)
  }

  /** The last two looks recorded for a claimed job were at its own path, and agree with each
      other and with the sample that the job carries. */
  ghost predicate TwiceSeen(looks: Looks, claim: ClaimedJob) {
    claim.job.sample.Some? && claim.job.after.Some?
    && SeenTwice(looks, claim.id, claim.job.root, claim.job.after.value, claim.job.sample.value)
  }

  lemma LookRecorded(before: Rows, looks: Looks, id: nat, g: Glance, after: Rows)
    requires LooksMatch(before, looks) && id in after && after[id].sample == Some(g.sample)
    requires after[id].root == g.root && after[id].after == Some(g.path)
    requires forall i | i in after && i != id :: i in before && after[i] == before[i]
    ensures LooksMatch(after, Noted(looks, id, g))
  {
    forall i | i in after && i != id && after[i].sample.Some? ensures LookedAt(looks, i, after[i]) {
      assert LookedAt(looks, i, before[i]);
    }
  }

  lemma LookRepeated(rows: Rows, looks: Looks, c: ClaimedJob, g: Glance)
    requires LooksMatch(rows, looks) && LookedAt(looks, c.id, c.job)
    requires c.job.sample == Some(g.sample) && c.job.root == g.root && c.job.after == Some(g.path)
    ensures LooksMatch(rows, Noted(looks, c.id, g)) && TwiceSeen(Noted(looks, c.id, g), c)
  {
    forall i | i in rows && rows[i].sample.Some? ensures LookedAt(Noted(looks, c.id, g), i, rows[i]) {
      assert LookedAt(looks, i, rows[i]);
    }
  }

  // ---- the scan of a batch

  /** The first job of the batch whose own path this is. */
  function FirstFor(batch: seq<Prepared>, path: Path): (p: Option<Prepared>)
    ensures p.Some? ==> p.value in batch && p.value.current == Some(path)
    ensures p.None? ==> forall q | q in batch :: q.current != Some(path)
  {
    if batch == [] then None
    else if batch[0].current == Some(path) then Some(batch[0])
    else FirstFor(batch[1..], path)
  }

  /** A scanned own path looks as the stable sample of its job did. */
  predicate Drifts(batch: seq<Prepared>, place: Place) {
    var p := FirstFor(batch, place.path);
    p.Some? && p.value.claim.job.sample != Some(place.sample)
  }

  ghost predicate NoDrift(batch: seq<Prepared>, seen: seq<Place>) {
    forall s | s in seen :: !Drifts(batch, s)
  }

  ghost predicate ApartJobs(a: ClaimedJob, b: ClaimedJob) {
    a.id != b.id
    && (a.job.root == b.job.root && a.job.after.Some? && b.job.after.Some? ==> Key(a.job.after.value) != Key(b.job.after.value))
  }

  /** Claims of different jobs, and those of one root for different paths. */
  ghost predicate AllApart(claims: seq<ClaimedJob>) {
    forall i, j | 0 <= i < j < |claims| :: ApartJobs(claims[i], claims[j])
  }

  /** No two jobs of a batch have one own path, however it is spelled. */
  ghost predicate OwnPathsApart(batch: seq<Prepared>) {
    forall i, j | 0 <= i < j < |batch| && batch[i].current.Some? && batch[j].current.Some? ::
      Key(batch[i].current.value) != Key(batch[j].current.value)
  }

  /** The claimed rows, while nothing has changed them. */
  ghost predicate RowsAreClaimed(rows: Rows, claims: seq<ClaimedJob>) {
    forall c | c in claims :: c.id in rows && rows[c.id] == c.job && c.job.status == Processing
  }

  /** One open job for each path makes the own paths of the claims of a root distinct. */
  lemma ClaimsAreApart(rows: Rows, claims: seq<ClaimedJob>)
    requires OnePerPath(rows) && RowsAreClaimed(rows, claims) && forall id | id in rows :: RowSound(rows[id])
    requires forall i, j | 0 <= i < j < |claims| :: claims[i].id != claims[j].id
    ensures AllApart(claims)
  {
    forall i, j | 0 <= i < j < |claims| ensures ApartJobs(claims[i], claims[j]) {
      assert claims[i] in claims && claims[j] in claims;
      assert RowSound(rows[claims[i].id]) && RowSound(rows[claims[j].id]);
    }
  }

  /** A job of this root, for its own path if any. */
  ghost predicate BelongsTo(p: Prepared, root: nat) {
    p.claim.job.root == root && (p.current.Some? ==> p.current == p.claim.job.after)
  }

  ghost predicate OfRoot(batch: seq<Prepared>, root: nat) {
    forall p | p in batch :: BelongsTo(p, root)
  }

  /** What is stored under a job's own path is what its last two looks at that path saw. */
  ghost predicate StoredStably(root: nat, batch: seq<Prepared>, seen: seq<Place>, looks: Looks) {
    forall p, place | p in batch && place in seen && p.current == Some(place.path) ::
      SeenTwice(looks, p.claim.id, root, place.path, place.sample)
  }

  lemma OwnPathsAreStable(looks: Looks, root: nat, batch: seq<Prepared>, seen: seq<Place>)
    requires NoDrift(batch, seen) && OwnPathsApart(batch) && OfRoot(batch, root)
    requires forall p | p in batch && p.current.Some? :: TwiceSeen(looks, p.claim)
    ensures StoredStably(root, batch, seen, looks)
  {
    forall p, place | p in batch && place in seen && p.current == Some(place.path)
      ensures SeenTwice(looks, p.claim.id, root, place.path, place.sample)
    {
      assert !Drifts(batch, place) && BelongsTo(p, root);
      var q := FirstFor(batch, place.path).value;
      OwnPathIsOne(batch, p, q);
    }
  }

  lemma OwnPathIsOne(batch: seq<Prepared>, p: Prepared, q: Prepared)
    requires OwnPathsApart(batch) && p in batch && q in batch && p.current.Some? && p.current == q.current
    ensures p == q
  {
    var i :| 0 <= i < |batch| && batch[i] == p;
    var j :| 0 <= j < |batch| && batch[j] == q;
    assert i < j || j < i || i == j;
  }

  // ---- the history of the catalog

  /** A scan that was stored, with the batch it was made for, the looks until then and the step
      at which it was made; or a path that was given up. */
  datatype Change =
    | Stored(root: nat, batch: seq<Prepared>, seen: seq<Place>, looks: Looks, at: nat)
    | GaveUp(root: nat, path: Path)

  function PlacesOf(catalog: map<nat, Places>, root: nat): Places {
    if root in catalog then catalog[root] else map[]
  }

  function GivenUp(root: nat, batch: seq<Prepared>): seq<Change> {
    if batch == [] then []
    else
      var last := batch[|batch| - 1];
      GivenUp(root, batch[..|batch| - 1]) + if last.missing.Some? then [GaveUp(root, last.missing.value)] else []
  }

  function AfterChange(catalog: map<nat, Places>, change: Change): map<nat, Places> {
    match change
    case Stored(root, _, seen, _, _) => catalog[root := ObservedAll(PlacesOf(catalog, root), seen)]
    case GaveUp(root, path) => catalog[root := PlacesOf(catalog, root) - {Key(path)}]
  }

  function Replayed(history: seq<Change>): map<nat, Places> {
    if history == [] then map[] else AfterChange(Replayed(history[..|history| - 1]), history[|history| - 1])
  }

  /** The world's scan at that step was stored as it was, stably, after looks that were taken
      before it. */
  ghost predicate IsSafe(change: Change, world: World, now: nat) {
    change.Stored? ==>
      && OneScan(change.seen) && 0 < change.at <= now
      && world.scans(change.at).Scanned? && world.scans(change.at).files == change.seen
      && OfRoot(change.batch, change.root) && StoredStably(change.root, change.batch, change.seen, change.looks)
      && LooksReal(change.looks, world, change.at - 1)
  }

  /** The catalog is what its history makes of it, and each scan was stored stably. */
  ghost predicate CatalogKept(catalog: map<nat, Places>, history: seq<Change>, world: World, now: nat) {
    catalog == Replayed(history) && AllSafe(history, world, now)
  }

  ghost predicate AllSafe(history: seq<Change>, world: World, now: nat) {
    history == [] || (IsSafe(history[|history| - 1], world, now) && AllSafe(history[..|history| - 1], world, now))
  }

  lemma ChangeKept(catalog: map<nat, Places>, history: seq<Change>, world: World, now: nat, change: Change)
    requires CatalogKept(catalog, history, world, now) && IsSafe(change, world, now)
    ensures CatalogKept(AfterChange(catalog, change), history + [change], world, now)
  {
    assert (history + [change])[..|history|] == history;
  }

  lemma TimePasses(catalog: map<nat, Places>, history: seq<Change>, looks: Looks, world: World, now: nat)
    requires CatalogKept(catalog, history, world, now) && LooksReal(looks, world, now)
    ensures CatalogKept(catalog, history, world, now + 1) && LooksReal(looks, world, now + 1)
  {
    RealLater(looks, world, now);
    SafeLater(history, world, now);
  }

  lemma {:induction false} SafeLater(history: seq<Change>, world: World, now: nat)
    requires AllSafe(history, world, now)
    ensures AllSafe(history, world, now + 1)
  {
    if history != [] {
      SafeLater(history[..|history| - 1], world, now);
    }
  }

  lemma RealLater(looks: Looks, world: World, now: nat)
    requires LooksReal(looks, world, now)
    ensures LooksReal(looks, world, now + 1)
  {
    forall id, g | id in looks && g in looks[id] ensures IsReal(g, world, now + 1) {
      assert IsReal(g, world, now);
    }
  }

  /** The job looked at this file at two steps before `at`, and these were its last looks; both
      saw this sample. */
  ghost predicate LookedTwice(looks: Looks, id: nat, root: nat, path: Path, sample: Sample, world: World, at: nat) {
    && SeenTwice(looks, id, root, path, sample)
    && var own := looks[id];
       var m, n := own[|own| - 2].at, own[|own| - 1].at;
       && m < n < at
       && world.looks(m, root, path).Seen? && world.looks(m, root, path).sample == sample
       && world.looks(n, root, path).Seen? && world.looks(n, root, path).sample == sample
  }

  /** The change that put a place into the catalog: a scan saw it there, and for each job of
      the batch whose own path it is, the last two looks, both at this path and before the
      scan, saw the same. */
  ghost predicate PutThere(change: Change, root: nat, place: Place, world: World) {
    && change.Stored? && change.root == root && place in change.seen
    && world.scans(change.at).Scanned? && world.scans(change.at).files == change.seen
    && forall p | p in change.batch && p.current == Some(place.path) ::
         && p.claim.job.root == root && p.claim.job.after == Some(place.path)
         && LookedTwice(change.looks, p.claim.id, root, place.path, place.sample, world, change.at)
  }

  ghost predicate WasPut(history: seq<Change>, root: nat, place: Place, world: World) {
    exists change :: change in history && PutThere(change, root, place, world)
  }

  lemma StoredWasSeen(change: Change, place: Place, world: World, now: nat)
    requires change.Stored? && IsSafe(change, world, now) && place in change.seen
    ensures PutThere(change, change.root, place, world)
  {
    forall p | p in change.batch && p.current == Some(place.path)
      ensures p.claim.job.root == change.root && p.claim.job.after == Some(place.path)
      ensures LookedTwice(change.looks, p.claim.id, change.root, place.path, place.sample, world, change.at)
    {
      assert BelongsTo(p, change.root);
      LooksBefore(change.looks, p.claim.id, change.root, place.path, place.sample, world, change.at);
    }
  }

  lemma LooksBefore(looks: Looks, id: nat, root: nat, path: Path, sample: Sample, world: World, at: nat)
    requires at > 0 && LooksReal(looks, world, at - 1) && SeenTwice(looks, id, root, path, sample)
    ensures LookedTwice(looks, id, root, path, sample, world, at)
  {
    var own := looks[id];
    var a, b := own[|own| - 2], own[|own| - 1];
    assert a in own && b in own && IsReal(a, world, at - 1) && IsReal(b, world, at - 1);
  }

  /** Over any run: whatever the catalog holds was put there by a scan, and under a job's own
      path the last two looks at that path before the scan saw it as it is cataloged. */
  lemma {:induction false} CatalogedWasPut(history: seq<Change>, root: nat, key: Path, world: World, now: nat)
    requires AllSafe(history, world, now)
    requires key in PlacesOf(Replayed(history), root)
    ensures WasPut(history, root, PlacesOf(Replayed(history), root)[key], world)
  {
    var front, last := history[..|history| - 1], history[|history| - 1];
    var place := PlacesOf(Replayed(history), root)[key];
    assert history == front + [last];
    ReplayedIsSound(front, root);
    if last.Stored? && last.root == root {
      ObservedExactly(PlacesOf(Replayed(front), root), last.seen, key, place);
      if place in last.seen {
        StoredWasSeen(last, place, world, now);
        return;
      }
    }
    CatalogedWasPut(front, root, key, world, now);
  }

  lemma {:induction false} ReplayedIsSound(history: seq<Change>, root: nat)
    ensures PlacesSound(PlacesOf(Replayed(history), root))
  {
    if history != [] {
      var front, last := history[..|history| - 1], history[|history| - 1];
      ReplayedIsSound(front, root);
      ReplayedIsSound(front, last.root);
    }
  }
}
