/** Comparing the disk with the catalog after a gap in the watch. */
module Reconciliation {
  import opened Paths
  import opened FileTree
  import opened JobStore

  // ---- exclusions

  datatype Exclusion = PathPrefix(path: Path, enabled: bool) | Extension(text: string, enabled: bool)

  predicate EndsWith(s: string, tail: string) {
    |tail| <= |s| && s[|s| - |tail|..] == tail
  }

  /** File names of temporary and hidden files, lower-cased. */
  predicate TemporaryName(name: string) {
    || "." <= name || "~$" <= name || EndsWith(name, "~")
    || EndsWith(name, ".tmp") || EndsWith(name, ".temp") || EndsWith(name, ".part") || EndsWith(name, ".partial")
    || EndsWith(name, ".crdownload") || EndsWith(name, ".swp")
  }

  predicate TemporaryFolder(name: string) {
    || name in {".git", ".svn", ".hg", "node_modules", "target", "cache", "caches", "tmp", "temp",
                "$recycle.bin", "system volume information", ".supremacy-staging"}
    || EndsWith(name, ".app")
  }

  /** `default_excluded`. */
  predicate DefaultExcluded(path: Path) {
    var names := Key(path);
    names == [] || TemporaryName(names[|names| - 1]) || exists i | 0 <= i < |names| :: TemporaryFolder(names[i])
  }

  function LastDot(name: string): (n: Option<nat>)
    ensures n.Some? ==> n.value < |name| && name[n.value] == '.' && '.' !in name[n.value + 1..]
    ensures n.None? ==> '.' !in name
  {
    if name == "" then None
    else if name[|name| - 1] == '.' then Some(|name| - 1)
    else LastDot(name[..|name| - 1])
  }

  /** `Path::extension`: what follows the last dot, unless the dot begins the name. */
  function ExtensionOf(name: string): Option<string> {
    var dot := LastDot(name);
    if dot.None? || dot.value == 0 then None else Some(name[dot.value + 1..])
  }

  /** `user_excluded`. */
  predicate UserExcluded(path: Path, exclusions: seq<Exclusion>) {
    exists x | 0 <= x < |exclusions| :: exclusions[x].enabled && Matches(path, exclusions[x])
  }

  predicate Matches(path: Path, exclusion: Exclusion) {
    match exclusion
    case PathPrefix(prefix, _) => AtOrUnder(Key(path), Key(prefix))
    case Extension(text, _) =>
      path != [] && ExtensionOf(Lower(path[|path| - 1])).Some? && ExtensionOf(Lower(path[|path| - 1])).value == Lower(text)
  }

  predicate IsExcluded(path: Path, exclusions: seq<Exclusion>) {
    DefaultExcluded(path) || UserExcluded(path, exclusions)
  }

  /** The verdict is a property of the filed path: spellings do not matter. */
  lemma ExcludedByKey(p: Path, q: Path, exclusions: seq<Exclusion>)
    requires Key(p) == Key(q)
    ensures IsExcluded(p, exclusions) == IsExcluded(q, exclusions)
  {
    assert p != [] ==> Key(p)[|p| - 1] == Lower(p[|p| - 1]) && Key(q)[|q| - 1] == Lower(q[|q| - 1]);
    forall x | 0 <= x < |exclusions| ensures Matches(p, exclusions[x]) == Matches(q, exclusions[x]) {
    }
  }

  // ---- disk and catalog

  /** A listed file. `reviewOnly`: hidden, remote or above the size threshold, so that the
      queue sends it to review instead of the catalog. */
  datatype Entry = Entry(path: Path, sample: Sample, reviewOnly: bool)

  datatype Row = Row(path: Path, sample: Sample)

  datatype Listing = Listing(files: seq<Entry>, truncated: bool, issues: nat, cancelled: bool)

  datatype Gap = Gap(kind: Kind, path: Path)

  ghost predicate DistinctFiles(files: seq<Entry>) {
    forall i, j | 0 <= i < j < |files| :: Key(files[i].path) != Key(files[j].path)
  }

  ghost predicate DistinctRows(rows: seq<Row>) {
    forall i, j | 0 <= i < j < |rows| :: Key(rows[i].path) != Key(rows[j].path)
  }

  ghost predicate Listed(files: seq<Entry>, key: Path) {
    exists e :: e in files && Key(e.path) == key
  }

  ghost predicate Cataloged(rows: seq<Row>, key: Path) {
    exists r :: r in rows && Key(r.path) == key
  }

  ghost predicate CatalogedAs(rows: seq<Row>, key: Path, sample: Sample) {
    exists r :: r in rows && Key(r.path) == key && r.sample == sample
  }

  /** What is to be reported about one listed file. */
  ghost predicate FileGap(rows: seq<Row>, exclusions: seq<Exclusion>, e: Entry, gap: Gap) {
    && gap.path == e.path && !IsExcluded(e.path, exclusions)
    && gap.kind == (if Cataloged(rows, Key(e.path)) then Modified else Created)
    && !CatalogedAs(rows, Key(e.path), e.sample)
  }

  /** The gaps between a listing and the catalog. Absence counts only when both are
      complete. */
  ghost predicate IsGap(files: seq<Entry>, rows: seq<Row>, complete: bool, exclusions: seq<Exclusion>, gap: Gap) {
    || (exists e :: e in files && FileGap(rows, exclusions, e, gap))
    || (complete && gap.kind == Removed && exists r :: r in rows && r.path == gap.path && !Listed(files, Key(r.path)))
  }

  ghost predicate NoRepeat(gaps: seq<Gap>) {
    forall i, j | 0 <= i < j < |gaps| :: gaps[i] != gaps[j]
  }

  // ---- the loop over the listing

  /** The catalog rows not met so far, by filed path. */
  ghost predicate Unmet(rows: seq<Row>, seen: seq<Entry>, current: map<Path, Row>) {
    && (forall k | k in current :: current[k] in rows && Key(current[k].path) == k && !Listed(seen, k))
    && (forall r | r in rows && !Listed(seen, Key(r.path)) :: Key(r.path) in current && current[Key(r.path)] == r)
  }

  method RowsByKey(rows: seq<Row>) returns (current: map<Path, Row>)
    requires DistinctRows(rows)
    ensures Unmet(rows, [], current)
  {
    current := map[];
    for i := 0 to |rows|
      invariant forall k | k in current :: current[k] in rows[..i] && Key(current[k].path) == k
      invariant forall j | 0 <= j < i :: Key(rows[j].path) in current && current[Key(rows[j].path)] == rows[j]
    {
      current := current[Key(rows[i].path) := rows[i]];
    }
  }

  lemma UnmetNext(rows: seq<Row>, files: seq<Entry>, i: nat, current: map<Path, Row>)
    requires i < |files| && DistinctFiles(files) && DistinctRows(rows) && Unmet(rows, files[..i], current)
    ensures Unmet(rows, files[..i + 1], current - {Key(files[i].path)})
    ensures Key(files[i].path) in current <==> Cataloged(rows, Key(files[i].path))
    ensures Key(files[i].path) in current ==>
              (current[Key(files[i].path)].sample == files[i].sample <==> CatalogedAs(rows, Key(files[i].path), files[i].sample))
  {
    var key, e := Key(files[i].path), files[i];
    assert files[..i + 1] == files[..i] + [e];
    NotListedYet(files, i);
    forall k ensures Listed(files[..i + 1], k) <==> Listed(files[..i], k) || k == key {
      if Listed(files[..i], k) {
        var f :| f in files[..i] && Key(f.path) == k;
        assert f in files[..i + 1];
      }
      if k == key {
        assert e in files[..i + 1];
      }
    }
    forall r | r in rows && Key(r.path) == key ensures key in current && r == current[key] {
    }
  }

  lemma NotListedYet(files: seq<Entry>, i: nat)
    requires i < |files| && DistinctFiles(files)
    ensures !Listed(files[..i], Key(files[i].path))
  {
  }

  /** The verdict on the next file. */
  ghost predicate GapsSoFar(files: seq<Entry>, rows: seq<Row>, exclusions: seq<Exclusion>, i: nat, gaps: seq<Gap>)
    requires i <= |files|
  {
    && NoRepeat(gaps)
    && (forall g | g in gaps :: exists e :: e in files[..i] && FileGap(rows, exclusions, e, g))
    && (forall e, g | e in files[..i] && FileGap(rows, exclusions, e, g) :: g in gaps)
  }

  lemma NextGap(files: seq<Entry>, rows: seq<Row>, exclusions: seq<Exclusion>, i: nat, gaps: seq<Gap>, more: seq<Gap>)
    requires i < |files| && DistinctFiles(files) && GapsSoFar(files, rows, exclusions, i, gaps)
    requires forall g :: g in more <==> FileGap(rows, exclusions, files[i], g)
    requires |more| <= 1
    ensures GapsSoFar(files, rows, exclusions, i + 1, gaps + more)
  {
    assert files[..i + 1] == files[..i] + [files[i]];
    forall g | g in gaps ensures g !in more {
      var e :| e in files[..i] && FileGap(rows, exclusions, e, g);
      NotListedYet(files, i);
      assert Key(e.path) != Key(files[i].path);
    }
    NoRepeatTogether(gaps, more);
    forall g | g in gaps + more ensures exists e :: e in files[..i + 1] && FileGap(rows, exclusions, e, g) {
      if g in gaps {
        var e :| e in files[..i] && FileGap(rows, exclusions, e, g);
        assert e in files[..i + 1];
      } else {
        assert files[i] in files[..i + 1];
      }
    }
    forall e, g | e in files[..i + 1] && FileGap(rows, exclusions, e, g) ensures g in gaps + more {
      if e != files[i] {
        assert e in files[..i];
      }
    }
  }

  lemma NoRepeatTogether(a: seq<Gap>, b: seq<Gap>)
    requires NoRepeat(a) && NoRepeat(b) && forall g | g in a :: g !in b
    ensures NoRepeat(a + b)
  {
    var both := a + b;
    forall i, j | 0 <= i < j < |both| ensures both[i] != both[j] {
      if i < |a| <= j {
        assert both[i] in a && both[j] in b;
      }
    }
  }

  /** The gap of one file, given its row. */
  function GapOf(e: Entry, row: Option<Row>, exclusions: seq<Exclusion>): (gaps: seq<Gap>)
    ensures |gaps| <= 1
  {
    if IsExcluded(e.path, exclusions) then []
    else if row.None? then [Gap(Created, e.path)]
    else if row.value.sample == e.sample then []
    else [Gap(Modified, e.path)]
  }

  lemma GapOfIsFileGap(rows: seq<Row>, e: Entry, row: Option<Row>, exclusions: seq<Exclusion>)
    requires row.Some? <==> Cataloged(rows, Key(e.path))
    requires row.Some? ==> (row.value.sample == e.sample <==> CatalogedAs(rows, Key(e.path), e.sample))
    ensures forall g :: g in GapOf(e, row, exclusions) <==> FileGap(rows, exclusions, e, g)
  {
    assert CatalogedAs(rows, Key(e.path), e.sample) ==> Cataloged(rows, Key(e.path));
  }

  /** The loop over the listing that both reconciliations share. */
  method CompareFiles(files: seq<Entry>, rows: seq<Row>, exclusions: seq<Exclusion>)
    returns (gaps: seq<Gap>, unmet: map<Path, Row>)
    requires DistinctFiles(files) && DistinctRows(rows)
    ensures GapsSoFar(files, rows, exclusions, |files|, gaps) && Unmet(rows, files, unmet)
  {
    gaps := [];
    unmet := RowsByKey(rows);
    for i := 0 to |files|
      invariant GapsSoFar(files, rows, exclusions, i, gaps) && Unmet(rows, files[..i], unmet)
    {
      var e, key := files[i], Key(files[i].path);
      var row := if key in unmet then Some(unmet[key]) else None;
      UnmetNext(rows, files, i, unmet);
      GapOfIsFileGap(rows, e, row, exclusions);
      NextGap(files, rows, exclusions, i, gaps, GapOf(e, row, exclusions));
      gaps, unmet := gaps + GapOf(e, row, exclusions), unmet - {key};
    }
    assert files[..|files|] == files;
  }

  /** The loop over what is left of the catalog. */
  method Removals(unmet: map<Path, Row>) returns (gaps: seq<Gap>)
    requires forall k | k in unmet :: Key(unmet[k].path) == k
    ensures NoRepeat(gaps) && forall g :: g in gaps <==> g.kind == Removed && RemovedRow(unmet, unmet.Keys, g)
  {
    gaps := [];
    var keys := unmet.Keys;
    while keys != {}
      invariant keys <= unmet.Keys && NoRepeat(gaps)
      invariant forall g :: g in gaps <==> g.kind == Removed && RemovedRow(unmet, unmet.Keys - keys, g)
      decreases keys
    {
      var key :| key in keys;
      var gap := Gap(Removed, unmet[key].path);
      forall g ensures RemovedRow(unmet, unmet.Keys - (keys - {key}), g)
                       <==> RemovedRow(unmet, unmet.Keys - keys, g) || g.path == unmet[key].path {
        if g.path == unmet[key].path {
          assert key in unmet.Keys - (keys - {key});
        }
        if RemovedRow(unmet, unmet.Keys - keys, g) {
          var k :| k in unmet.Keys - keys && g.path == unmet[k].path;
          assert k in unmet.Keys - (keys - {key});
        }
      }
      assert gap !in gaps;
      keys, gaps := keys - {key}, gaps + [gap];
    }
    assert unmet.Keys - {} == unmet.Keys;
  }

  ghost predicate RemovedRow(unmet: map<Path, Row>, keys: set<Path>, gap: Gap)
    requires keys <= unmet.Keys
  {
    exists k :: k in keys && gap.path == unmet[k].path
  }

  ghost predicate Reports(files: seq<Entry>, rows: seq<Row>, complete: bool, exclusions: seq<Exclusion>, gaps: seq<Gap>) {
    NoRepeat(gaps) && forall g :: g in gaps <==> IsGap(files, rows, complete, exclusions, g)
  }

  lemma GapsTogether(files: seq<Entry>, rows: seq<Row>, exclusions: seq<Exclusion>, gaps: seq<Gap>, unmet: map<Path, Row>,
                     removals: seq<Gap>)
    requires GapsSoFar(files, rows, exclusions, |files|, gaps) && Unmet(rows, files, unmet)
    requires NoRepeat(removals)
    requires forall g :: g in removals <==> g.kind == Removed && RemovedRow(unmet, unmet.Keys, g)
    ensures Reports(files, rows, true, exclusions, gaps + removals)
  {
    assert files[..|files|] == files;
    forall g | g in gaps ensures g.kind != Removed {
      var e :| e in files[..|files|] && FileGap(rows, exclusions, e, g);
    }
    forall g ensures RemovedRow(unmet, unmet.Keys, g) <==> exists r :: r in rows && r.path == g.path && !Listed(files, Key(r.path)) {
      if RemovedRow(unmet, unmet.Keys, g) {
        var k :| k in unmet.Keys && g.path == unmet[k].path;
        assert unmet[k] in rows;
      }
      if exists r :: r in rows && r.path == g.path && !Listed(files, Key(r.path)) {
        var r :| r in rows && r.path == g.path && !Listed(files, Key(r.path));
        assert Key(r.path) in unmet && unmet[Key(r.path)] == r;
      }
    }
    forall g ensures g in gaps + removals <==> IsGap(files, rows, true, exclusions, g) {
      assert g in gaps + removals <==> g in gaps || g in removals;
    }
  }

  lemma GapsAlone(files: seq<Entry>, rows: seq<Row>, exclusions: seq<Exclusion>, gaps: seq<Gap>)
    requires GapsSoFar(files, rows, exclusions, |files|, gaps)
    ensures Reports(files, rows, false, exclusions, gaps)
  {
    assert files[..|files|] == files;
  }

  // ---- the two reconciliations

  datatype Outcome = Interrupted | Bounded | Changed | Reconciled | Refused

  /** `reconcile_root_gap`. Incomplete data reports no absence and leaves the root
      overflowed; a complete comparison without a gap marks the root reconciled. */
  method ReconcileRootGap(listing: Listing, cancelled: bool, rows: seq<Row>, limit: nat, exclusions: seq<Exclusion>)
    returns (gaps: seq<Gap>, outcome: Outcome)
    requires DistinctFiles(listing.files) && DistinctRows(rows)
    ensures outcome == Interrupted <==> listing.cancelled || cancelled
    ensures outcome == Interrupted ==> gaps == []
    ensures outcome != Interrupted ==> Reports(listing.files, rows, Complete(listing, rows, limit), exclusions, gaps)
    ensures outcome != Interrupted ==> (outcome == Bounded <==> !Complete(listing, rows, limit))
    ensures outcome == Reconciled <==> !listing.cancelled && !cancelled && Complete(listing, rows, limit) && gaps == []
    ensures outcome != Refused
  {
    if listing.cancelled || cancelled {
      return [], Interrupted;
    }
    var unmet;
    gaps, unmet := CompareFiles(listing.files, rows, exclusions);
    if !Complete(listing, rows, limit) {
      GapsAlone(listing.files, rows, exclusions, gaps);
      return gaps, Bounded;
    }
    var removals := Removals(unmet);
    GapsTogether(listing.files, rows, exclusions, gaps, unmet, removals);
    gaps := gaps + removals;
    outcome := if gaps == [] then Reconciled else Changed;
  }

  predicate Complete(listing: Listing, rows: seq<Row>, limit: nat) {
    !listing.truncated && listing.issues == 0 && |rows| < limit
  }

  predicate InScope(path: Path, before: Option<Path>, after: Option<Path>) {
    (before.Some? && AtOrUnder(path, before.value)) || (after.Some? && AtOrUnder(path, after.value))
  }

  function Scoped(rows: seq<Row>, before: Option<Path>, after: Option<Path>): (r: seq<Row>)
    ensures forall x :: x in r <==> x in rows && InScope(x.path, before, after)
    ensures DistinctRows(rows) ==> DistinctRows(r)
  {
    if rows == [] then []
    else
      var rest := Scoped(rows[1..], before, after);
      if InScope(rows[0].path, before, after) then [rows[0]] + rest else rest
  }

  /** `reconcile_directory_gap` with at least one path. `listing` is what lies under the new
      path, nothing when it is gone; incomplete data is refused outright. */
  method ReconcileDirectoryGap(before: Option<Path>, after: Option<Path>, listing: Option<Listing>, cancelled: bool,
                               rows: seq<Row>, limit: nat, exclusions: seq<Exclusion>)
    returns (gaps: seq<Gap>, outcome: Outcome)
    requires before.Some? || after.Some?
    requires listing.Some? ==> after.Some? && DistinctFiles(listing.value.files)
    requires listing.Some? ==> forall e | e in listing.value.files :: AtOrUnder(e.path, after.value)
    requires DistinctRows(rows)
    ensures outcome == Interrupted <==> listing.Some? && (listing.value.cancelled || cancelled)
    ensures outcome == Refused <==> outcome != Interrupted && !CompleteBelow(listing, rows, limit)
    ensures outcome in {Interrupted, Refused, Changed}
    ensures outcome in {Interrupted, Refused} ==> gaps == []
    ensures outcome !in {Interrupted, Refused} ==>
              Reports(FilesBelow(listing), Scoped(rows, before, after), true, exclusions, gaps)
    ensures forall g | g in gaps :: InScope(g.path, before, after)
  {
    if listing.Some? && (listing.value.cancelled || cancelled) {
      return [], Interrupted;
    }
    var unmet;
    gaps, unmet := CompareFiles(FilesBelow(listing), Scoped(rows, before, after), exclusions);
    if !CompleteBelow(listing, rows, limit) {
      return [], Refused;
    }
    var removals := Removals(unmet);
    GapsTogether(FilesBelow(listing), Scoped(rows, before, after), exclusions, gaps, unmet, removals);
    gaps, outcome := gaps + removals, Changed;
    forall g | g in gaps ensures InScope(g.path, before, after) {
      assert IsGap(FilesBelow(listing), Scoped(rows, before, after), true, exclusions, g);
    }
  }

  function FilesBelow(listing: Option<Listing>): seq<Entry> {
    if listing.Some? then listing.value.files else []
  }

  predicate CompleteBelow(listing: Option<Listing>, rows: seq<Row>, limit: nat) {
    (listing.Some? ==> !listing.value.truncated && listing.value.issues == 0) && |rows| < limit
  }

  /** Absence is never inferred from incomplete data. */
  lemma RemovedOnlyWhenGone(files: seq<Entry>, rows: seq<Row>, complete: bool, exclusions: seq<Exclusion>, gaps: seq<Gap>, g: Gap)
    requires Reports(files, rows, complete, exclusions, gaps) && g in gaps && g.kind == Removed
    ensures complete && (exists r :: r in rows && r.path == g.path) && !Listed(files, Key(g.path))
  {
    assert IsGap(files, rows, complete, exclusions, g);
  }

  // ---- the reported gaps, once the queue has worked them off

  /** What the queue makes of the catalog: a listed file that may be cataloged gets its
      sample, a removed path goes, and an excluded path is left alone. */
  ghost predicate WorkedOff(files: seq<Entry>, rows: seq<Row>, gaps: seq<Gap>, exclusions: seq<Exclusion>, after: seq<Row>) {
    DistinctRows(after) && forall key, sample :: CatalogedAs(after, key, sample) <==> Survives(files, rows, gaps, exclusions, key, sample)
  }

  ghost predicate Survives(files: seq<Entry>, rows: seq<Row>, gaps: seq<Gap>, exclusions: seq<Exclusion>, key: Path, sample: Sample) {
    || (exists e :: e in files && Key(e.path) == key && !e.reviewOnly && ReportsFile(gaps, e) && sample == e.sample)
    || (CatalogedAs(rows, key, sample) && !Rewritten(files, gaps, key)
        && !(exists g :: g in gaps && g.kind == Removed && Key(g.path) == key && !IsExcluded(g.path, exclusions)))
  }

  ghost predicate ReportsFile(gaps: seq<Gap>, e: Entry) {
    Gap(Created, e.path) in gaps || Gap(Modified, e.path) in gaps
  }

  ghost predicate Rewritten(files: seq<Entry>, gaps: seq<Gap>, key: Path) {
    exists e :: e in files && Key(e.path) == key && !e.reviewOnly && ReportsFile(gaps, e)
  }

  /** The rows that listed files get. */
  ghost function FreshRows(files: seq<Entry>, gaps: seq<Gap>): (after: seq<Row>)
    ensures forall r :: r in after <==> exists e :: e in files && !e.reviewOnly && ReportsFile(gaps, e) && r == Row(e.path, e.sample)
  {
    if files == [] then []
    else
      var rest, e := FreshRows(files[1..], gaps), files[0];
      assert files == [e] + files[1..];
      if !e.reviewOnly && ReportsFile(gaps, e) then [Row(e.path, e.sample)] + rest else rest
  }

  lemma {:induction false} FreshAreDistinct(files: seq<Entry>, gaps: seq<Gap>)
    requires DistinctFiles(files)
    ensures DistinctRows(FreshRows(files, gaps))
  {
    if files != [] {
      var rest := FreshRows(files[1..], gaps);
      FreshAreDistinct(files[1..], gaps);
      forall j | 0 <= j < |rest| ensures Key(rest[j].path) != Key(files[0].path) {
        assert rest[j] in rest;
        var e :| e in files[1..] && rest[j] == Row(e.path, e.sample);
        var i :| 0 <= i < |files| - 1 && files[1..][i] == e;
        assert files[i + 1] == e;
      }
    }
  }

  ghost predicate RowStays(files: seq<Entry>, gaps: seq<Gap>, exclusions: seq<Exclusion>, key: Path) {
    && !Rewritten(files, gaps, key)
    && !(exists g :: g in gaps && g.kind == Removed && Key(g.path) == key && !IsExcluded(g.path, exclusions))
  }

  /** The rows that are left alone. */
  ghost function KeptRows(rows: seq<Row>, files: seq<Entry>, gaps: seq<Gap>, exclusions: seq<Exclusion>): (after: seq<Row>)
    ensures forall r :: r in after <==> r in rows && RowStays(files, gaps, exclusions, Key(r.path))
    ensures DistinctRows(rows) ==> DistinctRows(after)
  {
    if rows == [] then []
    else
      var rest := KeptRows(rows[1..], files, gaps, exclusions);
      assert rows == [rows[0]] + rows[1..];
      if RowStays(files, gaps, exclusions, Key(rows[0].path)) then [rows[0]] + rest else rest
  }

  /** The queue can be worked off, whatever was reported. */
  lemma WorkedOffExists(files: seq<Entry>, rows: seq<Row>, gaps: seq<Gap>, exclusions: seq<Exclusion>)
    requires DistinctFiles(files) && DistinctRows(rows)
    ensures WorkedOff(files, rows, gaps, exclusions, FreshRows(files, gaps) + KeptRows(rows, files, gaps, exclusions))
  {
    var written, kept := FreshRows(files, gaps), KeptRows(rows, files, gaps, exclusions);
    FreshAreDistinct(files, gaps);
    forall i, j | 0 <= i < |written| && 0 <= j < |kept| ensures Key(written[i].path) != Key(kept[j].path) {
      FreshIsRewritten(files, gaps, written[i]);
      assert kept[j] in kept;
    }
    forall key, sample
      ensures CatalogedAs(written + kept, key, sample) <==> Survives(files, rows, gaps, exclusions, key, sample)
    {
      EitherRow(written, kept, key, sample);
      FreshExactly(files, gaps, key, sample);
      KeptExactly(files, rows, gaps, exclusions, key, sample);
    }
  }

  lemma FreshIsRewritten(files: seq<Entry>, gaps: seq<Gap>, r: Row)
    requires r in FreshRows(files, gaps)
    ensures Rewritten(files, gaps, Key(r.path))
  {
  }

  lemma EitherRow(a: seq<Row>, b: seq<Row>, key: Path, sample: Sample)
    ensures CatalogedAs(a + b, key, sample) <==> CatalogedAs(a, key, sample) || CatalogedAs(b, key, sample)
  {
    if CatalogedAs(a, key, sample) || CatalogedAs(b, key, sample) {
      var r :| (r in a || r in b) && Key(r.path) == key && r.sample == sample;
      assert r in a + b;
    }
  }

  lemma FreshExactly(files: seq<Entry>, gaps: seq<Gap>, key: Path, sample: Sample)
    ensures CatalogedAs(FreshRows(files, gaps), key, sample) <==>
              exists e :: e in files && Key(e.path) == key && !e.reviewOnly && ReportsFile(gaps, e) && sample == e.sample
  {
    if e :| e in files && Key(e.path) == key && !e.reviewOnly && ReportsFile(gaps, e) && sample == e.sample {
      assert Row(e.path, e.sample) in FreshRows(files, gaps);
    }
  }

  lemma KeptExactly(files: seq<Entry>, rows: seq<Row>, gaps: seq<Gap>, exclusions: seq<Exclusion>, key: Path, sample: Sample)
    ensures CatalogedAs(KeptRows(rows, files, gaps, exclusions), key, sample) <==>
              CatalogedAs(rows, key, sample) && RowStays(files, gaps, exclusions, key)
  {
    if CatalogedAs(rows, key, sample) && RowStays(files, gaps, exclusions, key) {
      var r :| r in rows && Key(r.path) == key && r.sample == sample;
      assert r in KeptRows(rows, files, gaps, exclusions);
    }
  }

  /** The catalog that a complete reconciliation aims at: every listed file that is not
      excluded, and the untouched rows of excluded files that are still there. */
  ghost predicate Target(files: seq<Entry>, rows: seq<Row>, exclusions: seq<Exclusion>, key: Path, sample: Sample) {
    || (exists e :: e in files && Key(e.path) == key && !IsExcluded(e.path, exclusions) && e.sample == sample)
    || (exists e :: e in files && Key(e.path) == key && IsExcluded(e.path, exclusions) && CatalogedAs(rows, key, sample))
  }

  /** What the queue cannot settle: a file that only review may see and that the catalog
      does not have as it is, or an excluded row whose file is gone. */
  ghost predicate Stuck(files: seq<Entry>, rows: seq<Row>, exclusions: seq<Exclusion>) {
    || (exists e :: e in files && StuckFile(rows, exclusions, e))
    || (exists r :: r in rows && StuckRow(files, exclusions, r))
  }

  ghost predicate StuckFile(rows: seq<Row>, exclusions: seq<Exclusion>, e: Entry) {
    e.reviewOnly && !IsExcluded(e.path, exclusions) && !CatalogedAs(rows, Key(e.path), e.sample)
  }

  ghost predicate StuckRow(files: seq<Entry>, exclusions: seq<Exclusion>, r: Row) {
    IsExcluded(r.path, exclusions) && !Listed(files, Key(r.path))
  }

  lemma OneFilePerKey(files: seq<Entry>, d: Entry, e: Entry)
    requires DistinctFiles(files) && d in files && e in files && Key(d.path) == Key(e.path)
    ensures d == e
  {
    var i :| 0 <= i < |files| && files[i] == d;
    var j :| 0 <= j < |files| && files[j] == e;
  }

  lemma OneRowPerKey(rows: seq<Row>, q: Row, r: Row)
    requires DistinctRows(rows) && q in rows && r in rows && Key(q.path) == Key(r.path)
    ensures q == r
  {
    var i :| 0 <= i < |rows| && rows[i] == q;
    var j :| 0 <= j < |rows| && rows[j] == r;
  }

  /** A listed file is reported exactly when it is not excluded and the catalog differs. */
  lemma FileReported(files: seq<Entry>, rows: seq<Row>, exclusions: seq<Exclusion>, gaps: seq<Gap>, e: Entry)
    requires DistinctFiles(files) && Reports(files, rows, true, exclusions, gaps) && e in files
    ensures ReportsFile(gaps, e) <==> !IsExcluded(e.path, exclusions) && !CatalogedAs(rows, Key(e.path), e.sample)
  {
    var kind := if Cataloged(rows, Key(e.path)) then Modified else Created;
    if !IsExcluded(e.path, exclusions) && !CatalogedAs(rows, Key(e.path), e.sample) {
      assert FileGap(rows, exclusions, e, Gap(kind, e.path));
    }
    forall k | k in {Created, Modified} && Gap(k, e.path) in gaps
      ensures !IsExcluded(e.path, exclusions) && !CatalogedAs(rows, Key(e.path), e.sample)
    {
      assert IsGap(files, rows, true, exclusions, Gap(k, e.path));
      var d :| d in files && FileGap(rows, exclusions, d, Gap(k, e.path));
      OneFilePerKey(files, d, e);
    }
  }

  /** A path is reported as removed exactly when it has a row and no file. */
  lemma RowReported(files: seq<Entry>, rows: seq<Row>, exclusions: seq<Exclusion>, gaps: seq<Gap>, key: Path)
    requires Reports(files, rows, true, exclusions, gaps)
    ensures (exists g :: g in gaps && g.kind == Removed && Key(g.path) == key && !IsExcluded(g.path, exclusions))
       <==> !Listed(files, key) && exists r :: r in rows && Key(r.path) == key && !IsExcluded(r.path, exclusions)
  {
    if g :| g in gaps && g.kind == Removed && Key(g.path) == key && !IsExcluded(g.path, exclusions) {
      assert IsGap(files, rows, true, exclusions, g);
    }
    if r :| r in rows && Key(r.path) == key && !IsExcluded(r.path, exclusions) && !Listed(files, key) {
      assert IsGap(files, rows, true, exclusions, Gap(Removed, r.path));
    }
  }

  /** Unless something is stuck, the worked-off catalog is the target. */
  lemma WorkedOffReachesTarget(files: seq<Entry>, rows: seq<Row>, exclusions: seq<Exclusion>, gaps: seq<Gap>, after: seq<Row>)
    requires DistinctFiles(files) && DistinctRows(rows) && Reports(files, rows, true, exclusions, gaps)
    requires WorkedOff(files, rows, gaps, exclusions, after) && !Stuck(files, rows, exclusions)
    ensures forall key, sample :: CatalogedAs(after, key, sample) <==> Target(files, rows, exclusions, key, sample)
  {
    forall key, sample ensures CatalogedAs(after, key, sample) <==> Target(files, rows, exclusions, key, sample) {
      if Listed(files, key) {
        var e :| e in files && Key(e.path) == key;
        ListedReachesTarget(files, rows, exclusions, gaps, after, e, sample);
      } else {
        UnlistedGoes(files, rows, exclusions, gaps, after, key, sample);
      }
    }
  }

  lemma ListedReachesTarget(files: seq<Entry>, rows: seq<Row>, exclusions: seq<Exclusion>, gaps: seq<Gap>, after: seq<Row>,
                            e: Entry, sample: Sample)
    requires DistinctFiles(files) && DistinctRows(rows) && Reports(files, rows, true, exclusions, gaps)
    requires WorkedOff(files, rows, gaps, exclusions, after) && e in files && !StuckFile(rows, exclusions, e)
    ensures CatalogedAs(after, Key(e.path), sample) <==> Target(files, rows, exclusions, Key(e.path), sample)
  {
    var key := Key(e.path);
    FileReported(files, rows, exclusions, gaps, e);
    RowReported(files, rows, exclusions, gaps, key);
    forall d | d in files && Key(d.path) == key ensures d == e {
      OneFilePerKey(files, d, e);
    }
    assert Survives(files, rows, gaps, exclusions, key, sample) <==>
             (if !e.reviewOnly && ReportsFile(gaps, e) then sample == e.sample else CatalogedAs(rows, key, sample));
    if CatalogedAs(rows, key, e.sample) && CatalogedAs(rows, key, sample) {
      var q :| q in rows && Key(q.path) == key && q.sample == e.sample;
      var r :| r in rows && Key(r.path) == key && r.sample == sample;
      OneRowPerKey(rows, q, r);
    }
  }

  lemma UnlistedGoes(files: seq<Entry>, rows: seq<Row>, exclusions: seq<Exclusion>, gaps: seq<Gap>, after: seq<Row>,
                     key: Path, sample: Sample)
    requires DistinctFiles(files) && Reports(files, rows, true, exclusions, gaps)
    requires WorkedOff(files, rows, gaps, exclusions, after) && !Stuck(files, rows, exclusions) && !Listed(files, key)
    ensures !CatalogedAs(after, key, sample)
  {
    RowReported(files, rows, exclusions, gaps, key);
    if CatalogedAs(rows, key, sample) {
      var r :| r in rows && Key(r.path) == key && r.sample == sample;
      assert !StuckRow(files, exclusions, r);
    }
  }

  /** A second reconciliation of the same disk finds nothing, and so marks the root
      reconciled, exactly when nothing is stuck. */
  lemma SettlesExactlyWhenNothingIsStuck(files: seq<Entry>, rows: seq<Row>, exclusions: seq<Exclusion>, gaps: seq<Gap>,
                                         after: seq<Row>, again: seq<Gap>)
    requires DistinctFiles(files) && DistinctRows(rows) && Reports(files, rows, true, exclusions, gaps)
    requires WorkedOff(files, rows, gaps, exclusions, after) && Reports(files, after, true, exclusions, again)
    ensures again == [] <==> !Stuck(files, rows, exclusions)
  {
    if Stuck(files, rows, exclusions) {
      StuckIsReportedAgain(files, rows, exclusions, gaps, after, again);
    } else {
      WorkedOffReachesTarget(files, rows, exclusions, gaps, after);
      NothingLeft(files, rows, exclusions, after, again);
    }
  }

  lemma NothingLeft(files: seq<Entry>, rows: seq<Row>, exclusions: seq<Exclusion>, after: seq<Row>, again: seq<Gap>)
    requires DistinctFiles(files) && Reports(files, after, true, exclusions, again)
    requires forall key, sample :: CatalogedAs(after, key, sample) <==> Target(files, rows, exclusions, key, sample)
    ensures again == []
  {
    if again != [] {
      var g := again[0];
      assert g in again;
      NoGapLeft(files, rows, exclusions, after, g);
    }
  }

  lemma NoGapLeft(files: seq<Entry>, rows: seq<Row>, exclusions: seq<Exclusion>, after: seq<Row>, g: Gap)
    requires DistinctFiles(files)
    requires forall key, sample :: CatalogedAs(after, key, sample) <==> Target(files, rows, exclusions, key, sample)
    ensures !IsGap(files, after, true, exclusions, g)
  {
    forall e | e in files && !IsExcluded(e.path, exclusions) ensures CatalogedAs(after, Key(e.path), e.sample) {
      assert Target(files, rows, exclusions, Key(e.path), e.sample);
    }
    forall r | r in after ensures Listed(files, Key(r.path)) {
      assert CatalogedAs(after, Key(r.path), r.sample);
      assert Target(files, rows, exclusions, Key(r.path), r.sample);
    }
  }

  lemma StuckIsReportedAgain(files: seq<Entry>, rows: seq<Row>, exclusions: seq<Exclusion>, gaps: seq<Gap>, after: seq<Row>,
                             again: seq<Gap>)
    requires DistinctFiles(files) && DistinctRows(rows) && Reports(files, rows, true, exclusions, gaps)
    requires WorkedOff(files, rows, gaps, exclusions, after) && Reports(files, after, true, exclusions, again)
    requires Stuck(files, rows, exclusions)
    ensures again != []
  {
    if e :| e in files && StuckFile(rows, exclusions, e) {
      StuckFileStays(files, rows, exclusions, gaps, after, e);
      FileReported(files, after, exclusions, again, e);
    } else {
      var r :| r in rows && StuckRow(files, exclusions, r);
      var key := Key(r.path);
      StuckRowStays(files, rows, exclusions, gaps, after, r);
      var s :| s in after && Key(s.path) == key && s.sample == r.sample;
      assert IsGap(files, after, true, exclusions, Gap(Removed, s.path));
    }
  }

  lemma StuckFileStays(files: seq<Entry>, rows: seq<Row>, exclusions: seq<Exclusion>, gaps: seq<Gap>, after: seq<Row>, e: Entry)
    requires DistinctFiles(files) && WorkedOff(files, rows, gaps, exclusions, after)
    requires e in files && StuckFile(rows, exclusions, e)
    ensures !CatalogedAs(after, Key(e.path), e.sample)
  {
    forall d | d in files && Key(d.path) == Key(e.path) ensures d == e {
      OneFilePerKey(files, d, e);
    }
    assert !Survives(files, rows, gaps, exclusions, Key(e.path), e.sample);
  }

  lemma StuckRowStays(files: seq<Entry>, rows: seq<Row>, exclusions: seq<Exclusion>, gaps: seq<Gap>, after: seq<Row>, r: Row)
    requires DistinctRows(rows) && WorkedOff(files, rows, gaps, exclusions, after) && r in rows && StuckRow(files, exclusions, r)
    ensures CatalogedAs(after, Key(r.path), r.sample)
  {
    forall g | g in gaps && Key(g.path) == Key(r.path) ensures IsExcluded(g.path, exclusions) {
      ExcludedByKey(g.path, r.path, exclusions);
    }
    assert CatalogedAs(rows, Key(r.path), r.sample);
    assert Survives(files, rows, gaps, exclusions, Key(r.path), r.sample);
  }

  // ---- directory against root

  /** Disk and catalog spell their paths alike as far as the scopes can tell. */
  ghost predicate ScopedAlike(files: seq<Entry>, rows: seq<Row>, before: Option<Path>, after: Option<Path>) {
    forall e, r | e in files && r in rows && Key(e.path) == Key(r.path) ::
      InScope(e.path, before, after) == InScope(r.path, before, after)
  }

  /** What lies under the new path. */
  ghost predicate ListsBelow(files: seq<Entry>, below: seq<Entry>, after: Option<Path>) {
    forall e :: e in below <==> e in files && after.Some? && AtOrUnder(e.path, after.value)
  }

  /** Nothing that matters is left at the old path. */
  ghost predicate OldPathClear(files: seq<Entry>, rows: seq<Row>, exclusions: seq<Exclusion>, before: Option<Path>, after: Option<Path>) {
    forall e | e in files && LeftBehind(e, before, after) :: IsExcluded(e.path, exclusions) && !Cataloged(rows, Key(e.path))
  }

  ghost predicate LeftBehind(e: Entry, before: Option<Path>, after: Option<Path>) {
    InScope(e.path, before, after) && !(after.Some? && AtOrUnder(e.path, after.value))
  }

  ghost predicate Agree(files: seq<Entry>, below: seq<Entry>, rows: seq<Row>, exclusions: seq<Exclusion>,
                        before: Option<Path>, after: Option<Path>, g: Gap) {
    IsGap(below, Scoped(rows, before, after), true, exclusions, g)
    <==> IsGap(files, rows, true, exclusions, g) && InScope(g.path, before, after)
  }

  lemma SameRowInScope(files: seq<Entry>, rows: seq<Row>, before: Option<Path>, after: Option<Path>, e: Entry)
    requires ScopedAlike(files, rows, before, after) && e in files && InScope(e.path, before, after)
    ensures Cataloged(Scoped(rows, before, after), Key(e.path)) <==> Cataloged(rows, Key(e.path))
    ensures CatalogedAs(Scoped(rows, before, after), Key(e.path), e.sample) <==> CatalogedAs(rows, Key(e.path), e.sample)
  {
    forall r | r in rows && Key(r.path) == Key(e.path) ensures r in Scoped(rows, before, after) {
    }
  }

  lemma FileGapsAgree(files: seq<Entry>, below: seq<Entry>, rows: seq<Row>, exclusions: seq<Exclusion>,
                      before: Option<Path>, after: Option<Path>, g: Gap)
    requires DistinctFiles(files) && ScopedAlike(files, rows, before, after) && ListsBelow(files, below, after)
    requires OldPathClear(files, rows, exclusions, before, after)
    ensures (exists e :: e in below && FileGap(Scoped(rows, before, after), exclusions, e, g))
       <==> (exists e :: e in files && FileGap(rows, exclusions, e, g)) && InScope(g.path, before, after)
  {
    if e :| e in below && FileGap(Scoped(rows, before, after), exclusions, e, g) {
      SameRowInScope(files, rows, before, after, e);
      assert FileGap(rows, exclusions, e, g);
    }
    if InScope(g.path, before, after) {
      if e :| e in files && FileGap(rows, exclusions, e, g) {
        SameRowInScope(files, rows, before, after, e);
        assert !LeftBehind(e, before, after);
        assert e in below && FileGap(Scoped(rows, before, after), exclusions, e, g);
      }
    }
  }

  lemma RowGapsAgree(files: seq<Entry>, below: seq<Entry>, rows: seq<Row>, exclusions: seq<Exclusion>,
                     before: Option<Path>, after: Option<Path>, r: Row)
    requires ScopedAlike(files, rows, before, after) && ListsBelow(files, below, after)
    requires OldPathClear(files, rows, exclusions, before, after)
    requires r in rows && InScope(r.path, before, after)
    ensures Listed(below, Key(r.path)) <==> Listed(files, Key(r.path))
  {
    if Listed(files, Key(r.path)) {
      var e :| e in files && Key(e.path) == Key(r.path);
      assert InScope(e.path, before, after) && Cataloged(rows, Key(e.path));
      assert !LeftBehind(e, before, after);
      assert e in below;
    }
    if Listed(below, Key(r.path)) {
      var e :| e in below && Key(e.path) == Key(r.path);
      assert e in files;
    }
  }

  /** A complete directory reconciliation reports exactly what a root reconciliation
      reports inside the two scopes, exactly when the old path is clear. */
  lemma DirectoryMatchesRootExactly(files: seq<Entry>, below: seq<Entry>, rows: seq<Row>, exclusions: seq<Exclusion>,
                                    before: Option<Path>, after: Option<Path>)
    requires DistinctFiles(files) && ScopedAlike(files, rows, before, after) && ListsBelow(files, below, after)
    ensures (forall g :: Agree(files, below, rows, exclusions, before, after, g))
       <==> OldPathClear(files, rows, exclusions, before, after)
  {
    if OldPathClear(files, rows, exclusions, before, after) {
      forall g ensures Agree(files, below, rows, exclusions, before, after, g) {
        FileGapsAgree(files, below, rows, exclusions, before, after, g);
        forall r | r in rows && InScope(r.path, before, after)
          ensures Listed(below, Key(r.path)) <==> Listed(files, Key(r.path))
        {
          RowGapsAgree(files, below, rows, exclusions, before, after, r);
        }
      }
    }
    forall e | e in files && LeftBehind(e, before, after) && !(IsExcluded(e.path, exclusions) && !Cataloged(rows, Key(e.path)))
      ensures exists g :: !Agree(files, below, rows, exclusions, before, after, g)
    {
      LeftBehindDisagrees(files, below, rows, exclusions, before, after, e);
    }
  }

  /** A file left behind at the old path: cataloged, it is reported as removed although it is
      there; not cataloged, it is missed. */
  lemma LeftBehindDisagrees(files: seq<Entry>, below: seq<Entry>, rows: seq<Row>, exclusions: seq<Exclusion>,
                            before: Option<Path>, after: Option<Path>, e: Entry)
    requires DistinctFiles(files) && ScopedAlike(files, rows, before, after) && ListsBelow(files, below, after)
    requires e in files && LeftBehind(e, before, after)
    requires !IsExcluded(e.path, exclusions) || Cataloged(rows, Key(e.path))
    ensures exists g :: !Agree(files, below, rows, exclusions, before, after, g)
  {
    forall d | d in below ensures Key(d.path) != Key(e.path) {
      if Key(d.path) == Key(e.path) {
        OneFilePerKey(files, d, e);
      }
    }
    if Cataloged(rows, Key(e.path)) {
      var r :| r in rows && Key(r.path) == Key(e.path);
      var g := Gap(Removed, r.path);
      assert !Listed(below, Key(r.path)) && r in Scoped(rows, before, after);
      assert IsGap(below, Scoped(rows, before, after), true, exclusions, g);
      ListedIsNotRemoved(files, rows, exclusions, e, r);
      assert !Agree(files, below, rows, exclusions, before, after, g);
    } else {
      var g := Gap(Created, e.path);
      assert FileGap(rows, exclusions, e, g);
      assert !Agree(files, below, rows, exclusions, before, after, g);
    }
  }

  lemma ListedIsNotRemoved(files: seq<Entry>, rows: seq<Row>, exclusions: seq<Exclusion>, e: Entry, r: Row)
    requires e in files && Key(e.path) == Key(r.path)
    ensures !IsGap(files, rows, true, exclusions, Gap(Removed, r.path))
  {
  }

  // ---- what the queue is given

  /** The event that reports a gap: a new or changed file by its path, a removal by the
      path it had. */
  function AsEvent(root: nat, readyAt: int, gap: Gap): (event: Event)
    ensures gap.kind in {Created, Modified, Removed} ==> Acceptable(event) && CoalescingKey(event) == Some(Key(gap.path))
  {
    if gap.kind == Removed then Event(root, Removed, OneFile, Some(gap.path), None, readyAt, 8)
    else Event(root, gap.kind, OneFile, None, Some(gap.path), readyAt, 8)
  }
}
