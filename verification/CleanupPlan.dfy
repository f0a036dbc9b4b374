/** The directory steps around the moves: what to create first and what to remove last. */
module CleanupPlan {
  import opened Paths
  import opened FileTree
  import opened MovePlanner
  import opened SourceCleanup

  // ---- order

  /** The sort keys: depth, then text. Removals go deepest first, creations shallowest first. */
  predicate InOrder(deepestFirst: bool, a: Path, b: Path) {
    if |a| == |b| then TextAtMost(Join(a), Join(b)) else (|a| > |b|) == deepestFirst
  }

  ghost predicate Ordered(deepestFirst: bool, list: seq<Path>) {
    forall x, y | 0 <= x < y < |list| :: InOrder(deepestFirst, list[x], list[y])
  }

  lemma InOrderTransitive(deepestFirst: bool, a: Path, b: Path, c: Path)
    requires InOrder(deepestFirst, a, b) && InOrder(deepestFirst, b, c)
    ensures InOrder(deepestFirst, a, c)
  {
    if |a| == |b| == |c| {
      TextOrderIsTransitive(Join(a), Join(b), Join(c));
    }
  }

  lemma NotInOrder(deepestFirst: bool, a: Path, b: Path)
    requires !InOrder(deepestFirst, a, b)
    ensures InOrder(deepestFirst, b, a)
  {
    TextOrderIsTotal(Join(a), Join(b));
  }

  lemma OrderedInsert(deepestFirst: bool, list: seq<Path>, i: nat, p: Path)
    requires i <= |list| && Ordered(deepestFirst, list)
    requires i > 0 ==> InOrder(deepestFirst, list[i - 1], p)
    requires i < |list| ==> InOrder(deepestFirst, p, list[i])
    ensures Ordered(deepestFirst, list[..i] + ([p] + list[i..]))
  {
    forall x | 0 <= x < i ensures InOrder(deepestFirst, list[x], p) {
      if x < i - 1 {
        InOrderTransitive(deepestFirst, list[x], list[i - 1], p);
      }
    }
    forall y | i <= y < |list| ensures InOrder(deepestFirst, p, list[y]) {
      if y > i {
        InOrderTransitive(deepestFirst, p, list[i], list[y]);
      }
    }
  }

  ghost predicate SamePaths(a: seq<Path>, b: seq<Path>) {
    forall p :: p in a <==> p in b
  }

  lemma KeysInsert(list: seq<Path>, i: nat, p: Path)
    requires i <= |list|
    ensures Keys(list[..i] + ([p] + list[i..])) == Keys(list) + {Key(p)}
    ensures DistinctKeys(list) && Key(p) !in Keys(list) ==> DistinctKeys(list[..i] + ([p] + list[i..]))
    ensures SamePaths(list[..i] + ([p] + list[i..]), list + [p])
  {
    assert list == list[..i] + list[i..];
    KeysConcat(list[..i], list[i..]);
    KeysConcat([p], list[i..]);
    KeysConcat(list[..i], [p] + list[i..]);
    KeysOfOne(p);
    if DistinctKeys(list) && Key(p) !in Keys(list) {
      DistinctHalves(list, i);
      DistinctConcat([p], list[i..]);
      DistinctConcat(list[..i], [p] + list[i..]);
    }
  }

  lemma KeysOfOne(p: Path)
    ensures Keys([p]) == {Key(p)}
  {
    assert [p][0] == p;
    assert Key([p][0]) in Keys([p]);
  }

  lemma DistinctHalves(list: seq<Path>, i: nat)
    requires i <= |list| && DistinctKeys(list)
    ensures DistinctKeys(list[..i]) && DistinctKeys(list[i..]) && Keys(list[..i]) !! Keys(list[i..])
  {
    forall x, y | 0 <= x < i && 0 <= y < |list| - i ensures Key(list[..i][x]) != Key(list[i..][y]) {
      assert list[i..][y] == list[i + y];
    }
  }

  /** Where `p` goes in a sorted list. */
  method InsertionPoint(deepestFirst: bool, list: seq<Path>, p: Path) returns (i: nat)
    requires Ordered(deepestFirst, list)
    ensures i <= |list| && Ordered(deepestFirst, list[..i] + ([p] + list[i..]))
  {
    i := |list|;
    while i > 0 && !InOrder(deepestFirst, list[i - 1], p)
      invariant i <= |list|
      invariant i < |list| ==> InOrder(deepestFirst, p, list[i])
    {
      NotInOrder(deepestFirst, list[i - 1], p);
      i := i - 1;
    }
    OrderedInsert(deepestFirst, list, i, p);
  }

  /** The library sort, on paths filed apart; the `dedup` that follows it finds nothing. */
  method SortPaths(deepestFirst: bool, list: seq<Path>) returns (sorted: seq<Path>)
    requires DistinctKeys(list)
    ensures Ordered(deepestFirst, sorted) && DistinctKeys(sorted)
    ensures Keys(sorted) == Keys(list) && SamePaths(sorted, list)
  {
    sorted := [];
    for n := 0 to |list|
      invariant Ordered(deepestFirst, sorted) && DistinctKeys(sorted)
      invariant Keys(sorted) == Keys(list[..n]) && SamePaths(sorted, list[..n])
    {
      var i := InsertionPoint(deepestFirst, sorted, list[n]);
      NextKey(list, n);
      KeysInsert(sorted, i, list[n]);
      sorted := sorted[..i] + ([list[n]] + sorted[i..]);
    }
    assert list[..|list|] == list;
  }

  lemma NextKey(list: seq<Path>, n: nat)
    requires n < |list| && DistinctKeys(list)
    ensures Keys(list[..n + 1]) == Keys(list[..n]) + {Key(list[n])} && Key(list[n]) !in Keys(list[..n])
    ensures SamePaths(list[..n + 1], list[..n] + [list[n]])
  {
    assert list[..n + 1] == list[..n] + [list[n]];
    KeysConcat(list[..n], [list[n]]);
    KeysOfOne(list[n]);
  }

  // ---- removals

  /** `source_cleanup_top_level_is_protected`. */
  predicate Protected(top: Name) {
    || (top != "" && top[0] == '.')
    || Lower(top) in {
         "documents", "images", "pictures", "photos", "vidéos", "videos", "archives", "installateurs",
         "à vérifier", "a verifier", "développement", "developpement", "applications", "library", "system",
         "windows", "program files", "program files (x86)"}
  }

  /** Planned sources: relative paths of files, spelled in one way each. */
  ghost predicate KnownSources(t: Tree, sources: set<Path>) {
    && (forall s | s in sources :: IsRelative(s) && HasFile(t, Key(s)))
    && (forall r, s | r in sources && s in sources && Key(r) == Key(s) :: r == s)
  }

  function Tops(sources: set<Path>): set<Name>
    requires forall s | s in sources :: s != []
  {
    set s | s in sources && !Protected(s[0]) :: s[0]
  }

  ghost predicate SafeTop(t: Tree, names: Names, sources: set<Path>, destinations: seq<Path>, top: Name) {
    !Protected(top) && FullyPlanned(t, names, [top], sources, destinations)
  }

  /** The directories of all folders that the plan empties. */
  ghost function Removable(t: Tree, names: Names, sources: set<Path>, destinations: seq<Path>, tops: set<Name>): set<Path> {
    set q | q in t && t[q].Directory?
         && exists top :: top in tops && SafeTop(t, names, sources, destinations, top) && AtOrUnder(q, Key([top]))
  }

  lemma {:induction false} SpelledBelow(names: Names, dir: Path, q: Path)
    ensures AtOrUnder(Spell(names, dir, q), dir)
    decreases |q|
  {
    if |q| > |dir| {
      SpelledBelow(names, dir, Parent(q));
    }
  }

  /** Two spellings of one folder cannot both be safe: its files are spelled in one way. */
  lemma SafeTopsAreApart(t: Tree, names: Names, sources: set<Path>, destinations: seq<Path>, a: Name, b: Name)
    requires Spelled(t, names) && KnownSources(t, sources)
    requires a in Tops(sources) && SafeTop(t, names, sources, destinations, b) && Key([a]) == Key([b])
    ensures a == b
  {
    var s :| s in sources && s[0] == a;
    var q := Key(s);
    KeyOfPrefix(s, 1);
    assert s[..1] == [a];
    assert Below([b], q, t);
    SpelledBelow(names, [b], q);
    SpellingIsFiled(t, names, [b], q);
  }

  lemma ApartTops(t: Tree, names: Names, sources: set<Path>, destinations: seq<Path>, done: set<Name>, top: Name)
    requires Spelled(t, names) && KnownSources(t, sources)
    requires done <= Tops(sources) && top !in done && SafeTop(t, names, sources, destinations, top)
    ensures Removable(t, names, sources, destinations, done) !! DirectoriesUnder(t, Key([top]))
  {
    forall q, a | q in t && a in done && AtOrUnder(q, Key([a])) ensures !AtOrUnder(q, Key([top])) {
      if AtOrUnder(q, Key([top])) {
        SafeTopsAreApart(t, names, sources, destinations, a, top);
      }
    }
  }

  lemma OneMoreTop(t: Tree, names: Names, sources: set<Path>, destinations: seq<Path>, done: set<Name>, top: Name)
    ensures Removable(t, names, sources, destinations, done + {top})
         == Removable(t, names, sources, destinations, done)
            + (if SafeTop(t, names, sources, destinations, top) then DirectoriesUnder(t, Key([top])) else {})
  {
    var before, after := Removable(t, names, sources, destinations, done), Removable(t, names, sources, destinations, done + {top});
    forall q | q in before ensures q in after {
      var a :| a in done && SafeTop(t, names, sources, destinations, a) && AtOrUnder(q, Key([a]));
      assert a in done + {top};
    }
    if SafeTop(t, names, sources, destinations, top) {
      forall q | q in DirectoriesUnder(t, Key([top])) ensures q in after {
        assert top in done + {top};
      }
    }
  }

  ghost predicate Cleanable(list: seq<Path>) {
    forall x | 0 <= x < |list| :: IsRelative(list[x]) && !Protected(list[x][0])
  }

  /** The removals of the folders seen so far. */
  ghost predicate Cleaned(t: Tree, names: Names, sources: set<Path>, destinations: seq<Path>, done: set<Name>, list: seq<Path>) {
    Keys(list) == Removable(t, names, sources, destinations, done) && DistinctKeys(list) && Cleanable(list)
  }

  method CleanTop(t: Tree, names: Names, sources: set<Path>, destinations: seq<Path>, top: Name,
                  removable: seq<Path>, ghost done: set<Name>)
    returns (more: seq<Path>)
    requires Spelled(t, names) && KnownSources(t, sources) && forall d | d in destinations :: IsRelative(d)
    requires Cleaned(t, names, sources, destinations, done, removable)
    requires done <= Tops(sources) && top in Tops(sources) && top !in done
    ensures Cleaned(t, names, sources, destinations, done + {top}, more)
  {
    var discovered := new PathList();
    var safe, list := CollectFullyPlannedDirectoryTree(t, names, [top], sources, destinations, discovered);
    OneMoreTop(t, names, sources, destinations, done, top);
    more := removable;
    if safe {
      assert discovered.items == list;
      ApartTops(t, names, sources, destinations, done, top);
      KeysConcat(removable, list);
      DistinctConcat(removable, list);
      CleanableTogether(removable, list, top);
      more := removable + discovered.items;
    }
  }

  /** `plan_source_directory_cleanup`: exactly the directories of the folders that the plan
      empties, each once, children before parents. */
  method PlanSourceDirectoryCleanup(t: Tree, names: Names, sources: set<Path>, destinations: seq<Path>)
    returns (removals: seq<Path>)
    requires Spelled(t, names) && KnownSources(t, sources) && forall d | d in destinations :: IsRelative(d)
    ensures Cleaned(t, names, sources, destinations, Tops(sources), removals) && Ordered(true, removals)
  {
    var removable: seq<Path> := [];
    var tops := Tops(sources);
    ghost var done: set<Name> := {};
    NothingCleaned(t, names, sources, destinations);
    while tops != {}
      invariant done + tops == Tops(sources) && done !! tops
      invariant Cleaned(t, names, sources, destinations, done, removable)
      decreases tops
    {
      var top :| top in tops;
      removable := CleanTop(t, names, sources, destinations, top, removable, done);
      tops, done := tops - {top}, done + {top};
    }
    assert done == Tops(sources);
    removals := SortPaths(true, removable);
    CleanedSorted(t, names, sources, destinations, done, removable, removals);
  }

  lemma NothingCleaned(t: Tree, names: Names, sources: set<Path>, destinations: seq<Path>)
    ensures Cleaned(t, names, sources, destinations, {}, [])
  {
  }

  lemma CleanableTogether(removable: seq<Path>, list: seq<Path>, top: Name)
    requires Cleanable(removable) && !Protected(top) && SpelledUnder([top], list)
    ensures Cleanable(removable + list)
  {
    forall x | 0 <= x < |list| ensures list[x][0] == top {
      assert AtOrUnder(list[x], [top]);
    }
  }

  lemma CleanedSorted(t: Tree, names: Names, sources: set<Path>, destinations: seq<Path>, done: set<Name>,
                      removable: seq<Path>, removals: seq<Path>)
    requires Cleaned(t, names, sources, destinations, done, removable)
    requires DistinctKeys(removals) && Keys(removals) == Keys(removable) && SamePaths(removals, removable)
    ensures Cleaned(t, names, sources, destinations, done, removals)
  {
    forall x | 0 <= x < |removals| ensures IsRelative(removals[x]) && !Protected(removals[x][0]) {
      assert removals[x] in removable;
    }
  }

  // ---- creations

  ghost function PrefixKeys(destinations: seq<Path>): set<Path> {
    set d, n | d in destinations && 1 <= n < |d| :: Key(d)[..n]
  }

  /** Directory prefixes by filed path, each with the least spelling met. */
  ghost predicate Prefixes(keys: set<Path>, prefixes: map<Path, Path>) {
    prefixes.Keys == keys && forall k | k in prefixes :: Key(prefixes[k]) == k && SoundNames(prefixes[k])
  }

  function WithPrefix(prefixes: map<Path, Path>, prefix: Path): map<Path, Path> {
    var key := Key(prefix);
    if key in prefixes && TextAtMost(Join(prefixes[key]), Join(prefix)) then prefixes else prefixes[key := prefix]
  }

  /** `directory_prefixes`, up to its final sort. */
  method DirectoryPrefixes(destinations: seq<Path>) returns (prefixes: map<Path, Path>)
    requires forall d | d in destinations :: SoundNames(d)
    ensures Prefixes(PrefixKeys(destinations), prefixes)
  {
    prefixes := map[];
    for i := 0 to |destinations|
      invariant Prefixes(PrefixKeys(destinations[..i]), prefixes)
    {
      var d := destinations[i];
      assert SoundNames(d);
      ghost var before := PrefixKeys(destinations[..i]);
      ghost var seen: set<Path> := {};
      for n := 1 to |d|
        invariant seen == (set m | 1 <= m < n :: Key(d)[..m])
        invariant Prefixes(before + seen, prefixes)
      {
        PrefixSound(d, n);
        assert seen + {Key(d)[..n]} == (set m | 1 <= m < n + 1 :: Key(d)[..m]);
        assert before + (seen + {Key(d)[..n]}) == (before + seen) + {Key(d)[..n]};
        prefixes, seen := WithPrefix(prefixes, d[..n]), seen + {Key(d)[..n]};
      }
      PrefixKeysGrow(destinations, i);
    }
    assert destinations[..|destinations|] == destinations;
  }

  lemma PrefixSound(d: Path, n: nat)
    requires SoundNames(d) && 1 <= n < |d|
    ensures SoundNames(d[..n]) && Key(d[..n]) == Key(d)[..n]
  {
    KeyOfPrefix(d, n);
  }

  lemma PrefixKeysGrow(destinations: seq<Path>, i: nat)
    requires i < |destinations|
    ensures PrefixKeys(destinations[..i + 1])
         == PrefixKeys(destinations[..i]) + (set m | 1 <= m < |destinations[i]| :: Key(destinations[i])[..m])
  {
    assert destinations[..i + 1] == destinations[..i] + [destinations[i]];
  }

  /** The directories that the destinations need and that are not there yet. */
  ghost function Missing(t: Tree, destinations: seq<Path>): set<Path> {
    set k | k in PrefixKeys(destinations) && k !in t
  }

  ghost predicate PrefixesOpen(t: Tree, destinations: seq<Path>) {
    forall k | k in PrefixKeys(destinations) && k in t :: t[k].Directory?
  }

  ghost predicate SoundList(list: seq<Path>) {
    forall x | 0 <= x < |list| :: SoundNames(list[x])
  }

  method ValuesOf(prefixes: map<Path, Path>) returns (list: seq<Path>)
    requires Prefixes(prefixes.Keys, prefixes)
    ensures Keys(list) == prefixes.Keys && DistinctKeys(list) && SoundList(list)
  {
    list := [];
    var keys := prefixes.Keys;
    while keys != {}
      invariant keys <= prefixes.Keys && Keys(list) == prefixes.Keys - keys
      invariant DistinctKeys(list) && SoundList(list)
      decreases keys
    {
      var key :| key in keys;
      KeysConcat(list, [prefixes[key]]);
      KeysOfOne(prefixes[key]);
      DistinctConcat(list, [prefixes[key]]);
      keys, list := keys - {key}, list + [prefixes[key]];
    }
  }

  /** Which prefixes of a list are missing so far, in the order of the list. */
  ghost predicate Sifted(t: Tree, list: seq<Path>, missing: seq<Path>) {
    && Keys(missing) == (set k | k in Keys(list) && k !in t)
    && DistinctKeys(missing) && Ordered(false, missing) && SoundList(missing)
    && (forall k | k in Keys(list) && k in t :: t[k].Directory?)
    && forall p | p in missing :: p in list
  }

  lemma SiftNext(t: Tree, list: seq<Path>, n: nat, missing: seq<Path>)
    requires n < |list| && DistinctKeys(list) && Ordered(false, list) && SoundList(list)
    requires Sifted(t, list[..n], missing)
    requires Key(list[n]) in t ==> t[Key(list[n])].Directory?
    ensures Sifted(t, list[..n + 1], if Key(list[n]) in t then missing else missing + [list[n]])
  {
    NextKey(list, n);
    if Key(list[n]) !in t {
      KeysConcat(missing, [list[n]]);
      KeysOfOne(list[n]);
      DistinctConcat(missing, [list[n]]);
      var longer := missing + [list[n]];
      forall x | 0 <= x < |missing| ensures InOrder(false, missing[x], list[n]) {
        assert missing[x] in list[..n];
      }
      assert Ordered(false, longer);
    }
  }

  /** The loop over the sorted prefixes. */
  method Sift(t: Tree, list: seq<Path>) returns (r: Option<seq<Path>>)
    requires DistinctKeys(list) && Ordered(false, list) && SoundList(list)
    ensures r.Some? <==> forall k | k in Keys(list) && k in t :: t[k].Directory?
    ensures r.Some? ==> Sifted(t, list, r.value)
  {
    var missing: seq<Path> := [];
    for n := 0 to |list|
      invariant Sifted(t, list[..n], missing)
    {
      SortedKey(list, n);
      if Key(list[n]) in t && !t[Key(list[n])].Directory? {
        return None;
      }
      SiftNext(t, list, n, missing);
      if Key(list[n]) !in t {
        missing := missing + [list[n]];
      }
    }
    assert list[..|list|] == list;
    return Some(missing);
  }

  /** `plan_directories`: create exactly the missing directories, parents first, unless a
      needed one is something else. */
  method PlanDirectories(t: Tree, destinations: seq<Path>) returns (r: Option<seq<Path>>)
    requires forall d | d in destinations :: SoundNames(d)
    ensures r.Some? <==> PrefixesOpen(t, destinations)
    ensures r.Some? ==> Keys(r.value) == Missing(t, destinations) && DistinctKeys(r.value)
    ensures r.Some? ==> Ordered(false, r.value) && SoundList(r.value)
  {
    var prefixes := DirectoryPrefixes(destinations);
    var values := ValuesOf(prefixes);
    var list := SortPaths(false, values);
    SoundSorted(values, list);
    r := Sift(t, list);
  }

  lemma SoundSorted(values: seq<Path>, list: seq<Path>)
    requires SoundList(values) && SamePaths(list, values)
    ensures SoundList(list)
  {
    forall x | 0 <= x < |list| ensures SoundNames(list[x]) {
      assert list[x] in values;
    }
  }

  lemma SortedKey(list: seq<Path>, n: nat)
    requires n < |list|
    ensures Key(list[n]) in Keys(list)
  {
  }
}
