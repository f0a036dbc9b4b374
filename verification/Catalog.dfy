/** The catalog of current file locations, and what a targeted scan does to it. */
module Catalog {
  import opened Paths
  import opened FileTree
  import opened JobStore
  import opened Reconciliation

  /** A scanned file, or its current location: the native identity is the file itself. */
  datatype Place = Place(path: Path, identity: nat, sample: Sample)

  type Places = map<Path, Place>

  /** Locations are filed under their path, and each identity has at most one. */
  ghost predicate PlacesSound(places: Places) {
    && (forall k | k in places :: Key(places[k].path) == k)
    && (forall j, k | j in places && k in places && places[j].identity == places[k].identity :: j == k)
  }

  ghost predicate CurrentAt(places: Places, identity: nat, key: Path) {
    key in places && places[key].identity == identity
  }

  /** `persist_observation`: the path and the identity both lose any other location. */
  function Observed(places: Places, seen: Place): (after: Places)
    ensures PlacesSound(places) ==> PlacesSound(after)
    ensures CurrentAt(after, seen.identity, Key(seen.path)) && after[Key(seen.path)] == seen
  {
    var others := map k | k in places && places[k].identity != seen.identity :: places[k];
    others[Key(seen.path) := seen]
  }

  function ObservedAll(places: Places, seen: seq<Place>): (after: Places)
    ensures PlacesSound(places) ==> PlacesSound(after)
    decreases |seen|
  {
    if seen == [] then places else ObservedAll(Observed(places, seen[0]), seen[1..])
  }

  /** What one scan returns: files apart from each other. */
  ghost predicate OneScan(seen: seq<Place>) {
    forall i, j | 0 <= i < j < |seen| :: seen[i].identity != seen[j].identity && Key(seen[i].path) != Key(seen[j].path)
  }

  predicate SeenAt(seen: seq<Place>, key: Path) {
    exists s :: s in seen && Key(s.path) == key
  }

  ghost predicate SeenAs(seen: seq<Place>, identity: nat) {
    exists s :: s in seen && s.identity == identity
  }

  /** After a scan, a location is what the scan saw there, or an old one that the scan
      neither saw again nor found taken. */
  lemma {:induction false} ObservedExactly(places: Places, seen: seq<Place>, key: Path, place: Place)
    requires PlacesSound(places) && OneScan(seen)
    ensures (key in ObservedAll(places, seen) && ObservedAll(places, seen)[key] == place)
       <==> (place in seen && Key(place.path) == key)
            || (key in places && places[key] == place && !SeenAt(seen, key) && !SeenAs(seen, place.identity))
    decreases |seen|
  {
    if seen != [] {
      var first, rest := seen[0], seen[1..];
      forall i, j | 0 <= i < j < |rest|
        ensures rest[i].identity != rest[j].identity && Key(rest[i].path) != Key(rest[j].path)
      {
        assert rest[i] == seen[i + 1] && rest[j] == seen[j + 1];
      }
      ObservedExactly(Observed(places, first), rest, key, place);
      SeenSplit(seen, key, place.identity);
      FirstIsApart(seen);
      assert place in seen <==> place == first || place in rest;
    }
  }

  lemma SeenSplit(seen: seq<Place>, key: Path, identity: nat)
    requires seen != []
    ensures SeenAt(seen, key) <==> Key(seen[0].path) == key || SeenAt(seen[1..], key)
    ensures SeenAs(seen, identity) <==> seen[0].identity == identity || SeenAs(seen[1..], identity)
  {
    assert seen == [seen[0]] + seen[1..];
  }

  lemma FirstIsApart(seen: seq<Place>)
    requires seen != [] && OneScan(seen)
    ensures !SeenAt(seen[1..], Key(seen[0].path)) && !SeenAs(seen[1..], seen[0].identity)
  {
    forall s | s in seen[1..] ensures Key(s.path) != Key(seen[0].path) && s.identity != seen[0].identity {
      var i :| 0 <= i < |seen| - 1 && seen[1..][i] == s;
      assert seen[i + 1] == s;
    }
  }

  // ---- a batch of prepared jobs

  /** `PreparedJob`: the path to catalog and the path to give up. */
  datatype Prepared = Prepared(claim: ClaimedJob, current: Option<Path>, missing: Option<Path>)

  /** `mark_current_path_missing` for each job of the batch that gives up a path. */
  function Missed(places: Places, batch: seq<Prepared>): (after: Places)
    ensures PlacesSound(places) ==> PlacesSound(after)
  {
    if batch == [] then places
    else
      var rest := Missed(places, batch[..|batch| - 1]);
      var last := batch[|batch| - 1];
      if last.missing.Some? then rest - {Key(last.missing.value)} else rest
  }

  ghost predicate GivesUp(batch: seq<Prepared>, key: Path) {
    exists p :: p in batch && p.missing.Some? && Key(p.missing.value) == key
  }

  lemma {:induction false} MissedExactly(places: Places, batch: seq<Prepared>, key: Path)
    ensures key in Missed(places, batch) <==> key in places && !GivesUp(batch, key)
    ensures key in Missed(places, batch) ==> Missed(places, batch)[key] == places[key]
  {
    if batch != [] {
      var front, last := batch[..|batch| - 1], batch[|batch| - 1];
      assert batch == front + [last];
      MissedExactly(places, front, key);
      if GivesUp(front, key) {
        var p :| p in front && p.missing.Some? && Key(p.missing.value) == key;
        assert p in batch;
      }
      if last.missing.Some? && Key(last.missing.value) == key {
        assert last in batch;
      }
    }
  }

  /** The catalog at any exit of the batch: after the scan was stored and `n` jobs gave up
      their paths. */
  function AfterScan(places: Places, seen: seq<Place>, batch: seq<Prepared>): (after: Places)
    ensures PlacesSound(places) ==> PlacesSound(after)
  {
    Missed(ObservedAll(places, seen), batch)
  }

  /** A move whose source path the catalog knows. */
  ghost predicate Moves(p: Prepared, places: Places, source: Path, destination: Path, identity: nat) {
    && p.missing.Some? && Key(p.missing.value) == source
    && p.current.Some? && Key(p.current.value) == destination && source != destination
    && CurrentAt(places, identity, source)
  }

  /** No two jobs of the batch share a path. */
  ghost predicate DisjointJobs(batch: seq<Prepared>) {
    forall i, j | 0 <= i < |batch| && 0 <= j < |batch| && i != j ::
      && (batch[i].missing.Some? && batch[j].missing.Some? ==> Key(batch[i].missing.value) != Key(batch[j].missing.value))
      && (batch[i].missing.Some? && batch[j].current.Some? ==> Key(batch[i].missing.value) != Key(batch[j].current.value))
  }

  ghost predicate SeenHere(seen: seq<Place>, identity: nat, key: Path) {
    exists s :: s in seen && s.identity == identity && Key(s.path) == key
  }

  /** Whether the batch gave up the source so far; the destination is never given up. */
  lemma OwnPathsOnly(batch: seq<Prepared>, n: nat, i: nat, places: Places, source: Path, destination: Path, identity: nat)
    requires DisjointJobs(batch) && n <= |batch| && i < |batch| && Moves(batch[i], places, source, destination, identity)
    ensures GivesUp(batch[..n], source) <==> i < n
    ensures !GivesUp(batch[..n], destination)
  {
    if i < n {
      assert batch[..n][i] == batch[i];
    }
    forall p | p in batch[..n] && p.missing.Some?
      ensures Key(p.missing.value) != destination && (Key(p.missing.value) == source ==> i < n)
    {
      var j :| 0 <= j < n && batch[..n][j] == p;
      assert batch[j] == p;
    }
  }

  /** At every exit, the identity of a moved file is current at its source or its
      destination exactly when the scan saw it there, or the source is not given up yet and
      the scan found the file nowhere else and the source not taken. */
  lemma MovedFileIsCurrentExactly(places: Places, seen: seq<Place>, batch: seq<Prepared>, n: nat, i: nat,
                                  source: Path, destination: Path, identity: nat)
    requires PlacesSound(places) && OneScan(seen) && DisjointJobs(batch) && n <= |batch| && i < |batch|
    requires Moves(batch[i], places, source, destination, identity)
    ensures (var after := AfterScan(places, seen, batch[..n]);
             CurrentAt(after, identity, source) || CurrentAt(after, identity, destination))
       <==> SeenHere(seen, identity, destination)
            || (n <= i && (SeenHere(seen, identity, source) || (!SeenAt(seen, source) && !SeenAs(seen, identity))))
  {
    var scanned := ObservedAll(places, seen);
    OwnPathsOnly(batch, n, i, places, source, destination, identity);
    MissedExactly(scanned, batch[..n], source);
    MissedExactly(scanned, batch[..n], destination);
    ScannedAt(places, seen, destination, identity, source);
    ScannedAt(places, seen, source, identity, source);
  }

  lemma ScannedAt(places: Places, seen: seq<Place>, key: Path, identity: nat, source: Path)
    requires PlacesSound(places) && OneScan(seen) && CurrentAt(places, identity, source)
    ensures CurrentAt(ObservedAll(places, seen), identity, key)
       <==> SeenHere(seen, identity, key) || (key == source && !SeenAt(seen, key) && !SeenAs(seen, identity))
  {
    var scanned := ObservedAll(places, seen);
    if key in scanned {
      ObservedExactly(places, seen, key, scanned[key]);
    }
    if s :| s in seen && s.identity == identity && Key(s.path) == key {
      ObservedExactly(places, seen, key, s);
    }
    if key == source {
      ObservedExactly(places, seen, key, places[key]);
    }
  }

  /** In particular a real move, whose file the scan saw at the destination, is never lost. */
  lemma MovedFileIsNeverLost(places: Places, seen: seq<Place>, batch: seq<Prepared>, n: nat, i: nat,
                             source: Path, destination: Path, identity: nat)
    requires PlacesSound(places) && OneScan(seen) && DisjointJobs(batch) && n <= |batch| && i < |batch|
    requires Moves(batch[i], places, source, destination, identity) && SeenHere(seen, identity, destination)
    ensures CurrentAt(AfterScan(places, seen, batch[..n]), identity, destination)
  {
    OwnPathsOnly(batch, n, i, places, source, destination, identity);
    MissedExactly(ObservedAll(places, seen), batch[..n], destination);
    ScannedAt(places, seen, destination, identity, source);
  }
}
