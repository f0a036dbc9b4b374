/** Keeping a source folder together: its kind, its new place, and its subtree below. */
module FolderBundle {
  import opened Paths
  import opened FileTree

  // ---- source paths

  function Slashes(text: string): (r: string)
    ensures |r| == |text| && forall i | 0 <= i < |text| :: r[i] == if text[i] == '\\' then '/' else text[i]
  {
    seq(|text|, i requires 0 <= i < |text| => if text[i] == '\\' then '/' else text[i])
  }

  function Split(text: string): Path {
    var n := FirstSeparator(text);
    (if n == 0 then [] else [text[..n]]) + (if n < |text| then Split(text[n + 1..]) else [])
  }

  /** `normalized_source_components`. */
  function Components(text: string): Path {
    Split(Slashes(text))
  }

  lemma {:induction false} SplitOfJoin(path: Path)
    requires IsRelative(path)
    ensures Split(Join(path)) == path
  {
    JoinSplits(path);
    NameEndsAtFirstSeparator(path[0], Tail(path));
    var text := Join(path);
    assert text[..|path[0]|] == path[0];
    if |path| > 1 {
      DropFirst(text, path[0] + "/", Join(path[1..])) by {
        Regroup(path[0], "/", Join(path[1..]));
      }
      SplitOfJoin(path[1..]);
      assert path == [path[0]] + path[1..];
    }
  }

  lemma {:induction false} NoBackslashInJoin(path: Path)
    requires IsRelative(path)
    ensures '\\' !in Join(path)
  {
    if |path| > 1 {
      NoBackslashInJoin(path[1..]);
    }
  }

  /** Splitting the text of a path gives the path back. */
  lemma ComponentsOfJoin(path: Path)
    requires IsRelative(path)
    ensures Components(Join(path)) == path
  {
    NoBackslashInJoin(path);
    assert forall i | 0 <= i < |Join(path)| :: Join(path)[i] in Join(path);
    assert Slashes(Join(path)) == Join(path);
    SplitOfJoin(path);
  }

  // ---- signals

  predicate Contains(text: string, needle: string) {
    exists i | 0 <= i <= |text| :: needle <= text[i..]
  }

  function AfterLastDot(name: string): Option<string> {
    if name == "" then None
    else if name[|name| - 1] == '.' then Some("")
    else
      var front := AfterLastDot(name[..|name| - 1]);
      if front.Some? then Some(front.value + [name[|name| - 1]]) else None
  }

  predicate HasExtension(name: string, extensions: set<string>) {
    AfterLastDot(name).Some? && AfterLastDot(name).value in extensions
  }

  const MANIFESTS := {"package.json", "package-lock.json", "pnpm-lock.yaml", "yarn.lock", "cargo.toml", "cargo.lock",
                      "pyproject.toml", "requirements.txt", "poetry.lock", "go.mod", "go.sum", "pom.xml",
                      "composer.json", "composer.lock"}

  const CODE := {"js", "jsx", "ts", "tsx", "mjs", "cjs", "rs", "py", "go", "java", "c", "h", "cpp", "hpp", "cs", "php",
                 "rb", "swift", "kt", "kts", "vue", "svelte", "html", "css", "scss"}

  const IMAGES := {"jpg", "jpeg", "png", "gif", "webp", "heic", "avif", "svg"}

  const VIDEOS := {"mp4", "mov", "m4v", "mkv", "avi", "webm"}

  const WORK_NEEDLES := ["maquette", "portfolio", "projet", "project", "client", "chantier", "site", "web", "coaching",
                         "lea", "témoignage", "temoignage", "etanche", "psps"]

  predicate LooksLikeWork(top: Name) {
    exists i | 0 <= i < |WORK_NEEDLES| :: Contains(Lower(top), WORK_NEEDLES[i])
  }

  /** `consumer_bundle_top_level_is_protected`. */
  predicate ProtectedTop(top: Name) {
    || (top != "" && top[0] == '.')
    || Lower(top) in {
         "documents", "images", "pictures", "photos", "vidéos", "videos", "archives", "installateurs",
         "à vérifier", "a verifier", "développement", "developpement", "node_modules", "applications", "library",
         "system", "windows", "program files", "program files (x86)"}
  }

  datatype Input = Input(file: nat, path: string, name: Name, context: Option<string>)

  datatype Kind = Development | Work | Images | Videos | General

  datatype RootKind = Documents | Pictures | Movies | Other

  datatype Stats = Stats(files: nat, manifests: nat, codeFiles: nat, images: nat, videos: nat, workSignals: nat)

  const NO_STATS := Stats(0, 0, 0, 0, 0, 0)

  function One(b: bool): nat {
    if b then 1 else 0
  }

  predicate WorkSignal(input: Input, top: Name) {
    || LooksLikeWork(top)
    || (input.context.Some? && Contains(Lower(input.context.value), "work"))
    || Contains(Lower(input.name), "devis") || Contains(Lower(input.name), "chantier") || Contains(Lower(input.name), "client")
  }

  function Plus(a: Stats, b: Stats): Stats {
    Stats(a.files + b.files, a.manifests + b.manifests, a.codeFiles + b.codeFiles, a.images + b.images,
          a.videos + b.videos, a.workSignals + b.workSignals)
  }

  lemma PlusSwaps(a: Stats, b: Stats, c: Stats)
    ensures Plus(Plus(a, b), c) == Plus(Plus(a, c), b)
  {
  }

  /** What the first loop takes from one input: its components, the key of its folder unless
      it is not counted, and what it adds to the counts. */
  datatype Facts = Facts(file: nat, components: Path, key: Option<Name>, share: Stats)

  function FactsOf(input: Input): (facts: Facts)
    ensures facts.key.Some? ==> |facts.components| >= 2 && facts.key.value == Lower(facts.components[0])
    ensures facts.components == Components(input.path) && facts.file == input.file
  {
    var components, name := Components(input.path), Lower(input.name);
    if |components| < 2 || ProtectedTop(components[0]) then Facts(input.file, components, None, NO_STATS)
    else
      Facts(input.file, components, Some(Lower(components[0])),
            Stats(1, One(name in MANIFESTS), One(HasExtension(name, CODE)), One(HasExtension(name, IMAGES)),
                  One(HasExtension(name, VIDEOS)), One(WorkSignal(input, components[0]))))
  }

  function FactsAll(inputs: seq<Input>): (facts: seq<Facts>)
    ensures |facts| == |inputs| && forall i | 0 <= i < |inputs| :: facts[i] == FactsOf(inputs[i])
  {
    seq(|inputs|, i requires 0 <= i < |inputs| => FactsOf(inputs[i]))
  }

  // ---- what the first loop computes

  /** The counts of the folder filed under `key`. */
  function StatsOf(facts: seq<Facts>, key: Name): Stats {
    if facts == [] then NO_STATS
    else
      var last := facts[|facts| - 1];
      var front := StatsOf(facts[..|facts| - 1], key);
      if last.key == Some(key) then Plus(front, last.share) else front
  }

  /** The first spelling met. */
  function CanonicalTop(facts: seq<Facts>, key: Name): Option<Name> {
    if facts == [] then None
    else
      var front := CanonicalTop(facts[..|facts| - 1], key);
      var last := facts[|facts| - 1];
      if front.Some? then front
      else if last.key == Some(key) && last.components != [] then Some(last.components[0]) else None
  }

  ghost predicate Filed(facts: seq<Facts>) {
    forall i | 0 <= i < |facts| && facts[i].key.Some? ::
      facts[i].components != [] && Lower(facts[i].components[0]) == facts[i].key.value
  }

  lemma {:induction false} CanonicalTopIsFiled(facts: seq<Facts>, key: Name)
    requires Filed(facts)
    ensures CanonicalTop(facts, key).Some? ==> Lower(CanonicalTop(facts, key).value) == key
  {
    if facts != [] {
      CanonicalTopIsFiled(facts[..|facts| - 1], key);
    }
  }

  lemma {:induction false} NoStatsElsewhere(facts: seq<Facts>, key: Name)
    requires Filed(facts) && CanonicalTop(facts, key).None?
    ensures StatsOf(facts, key) == NO_STATS
  {
    if facts != [] {
      NoStatsElsewhere(facts[..|facts| - 1], key);
    }
  }

  /** The kind of a folder from its counts. */
  function KindOf(s: Stats): Kind {
    if s.manifests > 0 || s.codeFiles >= 2 then Development
    else if s.images > 0 && s.images * 100 >= s.files * 70 then Images
    else if s.videos > 0 && s.videos * 100 >= s.files * 70 then Videos
    else if s.workSignals > 0 then Work
    else General
  }

  ghost predicate CountsUp(facts: seq<Facts>, stats: map<Name, Stats>, names: map<Name, Name>) {
    && stats.Keys == names.Keys
    && (forall key :: key in names <==> CanonicalTop(facts, key).Some?)
    && (forall key | key in names :: names[key] == CanonicalTop(facts, key).value)
    && (forall key | key in stats :: stats[key] == StatsOf(facts, key))
  }

  lemma FactsNext(facts: seq<Facts>, i: nat, key: Name)
    requires i < |facts|
    ensures StatsOf(facts[..i + 1], key)
         == if facts[i].key == Some(key) then Plus(StatsOf(facts[..i], key), facts[i].share) else StatsOf(facts[..i], key)
    ensures facts[i].key != Some(key) ==> CanonicalTop(facts[..i + 1], key) == CanonicalTop(facts[..i], key)
    ensures facts[i].key == Some(key) && facts[i].components != [] ==>
              CanonicalTop(facts[..i + 1], key)
              == (if CanonicalTop(facts[..i], key).Some? then CanonicalTop(facts[..i], key) else Some(facts[i].components[0]))
  {
    assert facts[..i + 1][..i] == facts[..i];
  }

  lemma CountsUpSkip(facts: seq<Facts>, i: nat, stats: map<Name, Stats>, names: map<Name, Name>)
    requires i < |facts| && CountsUp(facts[..i], stats, names) && facts[i].key.None?
    ensures CountsUp(facts[..i + 1], stats, names)
  {
    forall key ensures CanonicalTop(facts[..i + 1], key) == CanonicalTop(facts[..i], key)
               ensures StatsOf(facts[..i + 1], key) == StatsOf(facts[..i], key) {
      FactsNext(facts, i, key);
    }
  }

  lemma CountsUpNext(facts: seq<Facts>, i: nat, stats: map<Name, Stats>, names: map<Name, Name>, key: Name, before: Stats)
    requires i < |facts| && Filed(facts) && CountsUp(facts[..i], stats, names) && facts[i].key == Some(key)
    requires before == if key in stats then stats[key] else NO_STATS
    ensures facts[i].components != []
    ensures CountsUp(facts[..i + 1], stats[key := Plus(before, facts[i].share)],
                     if key in names then names else names[key := facts[i].components[0]])
  {
    FactsNext(facts, i, key);
    if key !in stats {
      NoStatsElsewhere(facts[..i], key);
    }
    forall k | k != key ensures CanonicalTop(facts[..i + 1], k) == CanonicalTop(facts[..i], k)
                        ensures StatsOf(facts[..i + 1], k) == StatsOf(facts[..i], k) {
      FactsNext(facts, i, k);
    }
  }

  /** The loop over the inputs. */
  method CountFolders(facts: seq<Facts>) returns (stats: map<Name, Stats>, names: map<Name, Name>)
    requires Filed(facts)
    ensures CountsUp(facts, stats, names)
  {
    stats, names := map[], map[];
    for i := 0 to |facts|
      invariant CountsUp(facts[..i], stats, names)
    {
      if facts[i].key.None? {
        CountsUpSkip(facts, i, stats, names);
      } else {
        var key := facts[i].key.value;
        var before := if key in stats then stats[key] else NO_STATS;
        CountsUpNext(facts, i, stats, names, key, before);
        stats := stats[key := Plus(before, facts[i].share)];
        names := if key in names then names else names[key := facts[i].components[0]];
      }
    }
    assert facts[..|facts|] == facts;
  }

  // ---- places

  /** `consumer_bundle_base`. */
  function Base(root: RootKind, kind: Kind, top: Name): Path {
    match kind
    case Development => ["Développement", "Projets", top]
    case Work => (if root == Documents then ["Travail", "Projets"] else ["Documents", "Travail", "Projets"]) + [top]
    case Images => (if root == Pictures then ["Albums"] else ["Images", "Albums"]) + [top]
    case Videos => (if root == Movies then ["Collections"] else ["Vidéos", "Collections"]) + [top]
    case General => ["À vérifier", "Dossiers", top]
  }

  function Truncated(path: Path, depth: nat): Path {
    if |path| > depth then path[..depth] else path
  }

  /** The folders between the top folder and the file. */
  function Between(components: Path): Path
    requires |components| >= 2
  {
    components[1..|components| - 1]
  }

  function PlaceOf(facts: seq<Facts>, root: RootKind, components: Path): Option<Path>
    requires |components| >= 2
  {
    var key := Lower(components[0]);
    var top := CanonicalTop(facts, key);
    if top.None? then None else Some(Base(root, KindOf(StatsOf(facts, key)), top.value) + Between(components))
  }

  // ---- the drafts

  datatype Draft = Draft(file: nat, userOverride: bool, stale: bool, destination: Path, name: Name, needsReview: bool, tooLong: bool)

  /** The last input of a file, as the map by file keeps it. */
  function InputFor(inputs: seq<Input>, file: nat): (r: Option<Input>)
    ensures r.Some? ==> r.value in inputs && r.value.file == file
  {
    if inputs == [] then None
    else if inputs[|inputs| - 1].file == file then Some(inputs[|inputs| - 1])
    else InputFor(inputs[..|inputs| - 1], file)
  }

  /** The policy on one draft; `fits` is the verdict of the path-length gate. */
  function Rewritten(draft: Draft, input: Option<Input>, facts: seq<Facts>, root: RootKind, depth: nat, fits: (Path, Name) -> bool): Draft {
    if draft.userOverride || draft.stale || input.None? || |Components(input.value.path)| < 2 then draft
    else
      var place := PlaceOf(facts, root, Components(input.value.path));
      if place.None? then draft
      else
        var destination := Truncated(place.value, depth);
        if !fits(destination, input.value.name) then draft.(tooLong := true, needsReview := true)
        else draft.(destination := destination, name := input.value.name, needsReview := false, tooLong := false)
  }

  method InputsByFile(inputs: seq<Input>) returns (byFile: map<nat, Input>)
    ensures forall file :: if file in byFile then InputFor(inputs, file) == Some(byFile[file]) else InputFor(inputs, file).None?
  {
    byFile := map[];
    for i := 0 to |inputs|
      invariant forall file ::
                  if file in byFile then InputFor(inputs[..i], file) == Some(byFile[file]) else InputFor(inputs[..i], file).None?
    {
      assert inputs[..i + 1][..i] == inputs[..i];
      byFile := byFile[inputs[i].file := inputs[i]];
    }
    assert inputs[..|inputs|] == inputs;
  }

  /** One turn of the loop over the drafts. */
  method RewriteDraft(draft: Draft, input: Option<Input>, ghost facts: seq<Facts>, root: RootKind, depth: nat,
                      fits: (Path, Name) -> bool, stats: map<Name, Stats>, names: map<Name, Name>)
    returns (d: Draft)
    requires CountsUp(facts, stats, names)
    ensures d == Rewritten(draft, input, facts, root, depth, fits)
  {
    if draft.userOverride || draft.stale || input.None? {
      return draft;
    }
    var components := Components(input.value.path);
    if |components| < 2 || Lower(components[0]) !in stats {
      return draft;
    }
    var key := Lower(components[0]);
    var place := Base(root, KindOf(stats[key]), names[key]) + Between(components);
    assert PlaceOf(facts, root, components) == Some(place);
    var destination := Truncated(place, depth);
    d := if !fits(destination, input.value.name) then draft.(tooLong := true, needsReview := true)
         else draft.(destination := destination, name := input.value.name, needsReview := false, tooLong := false);
  }

  /** `apply_consumer_folder_bundle_policy`. */
  method ApplyFolderBundlePolicy(drafts: array<Draft>, inputs: seq<Input>, root: RootKind, depth: nat, fits: (Path, Name) -> bool)
    modifies drafts
    ensures forall i | 0 <= i < drafts.Length ::
              drafts[i] == Rewritten(old(drafts[i]), InputFor(inputs, old(drafts[i]).file), FactsAll(inputs), root, depth, fits)
  {
    var facts := FactsAll(inputs);
    FactsAreFiled(inputs);
    var stats, names := CountFolders(facts);
    var byFile := InputsByFile(inputs);
    ghost var before := drafts[..];
    for i := 0 to drafts.Length
      invariant forall j | 0 <= j < i ::
                  drafts[j] == Rewritten(before[j], InputFor(inputs, before[j].file), facts, root, depth, fits)
      invariant forall j | i <= j < drafts.Length :: drafts[j] == before[j]
    {
      var draft := drafts[i];
      var input := if draft.file in byFile then Some(byFile[draft.file]) else None;
      var rewritten := RewriteDraft(draft, input, facts, root, depth, fits, stats, names);
      drafts[i] := rewritten;
    }
  }

  lemma FactsAreFiled(inputs: seq<Input>)
    ensures Filed(FactsAll(inputs))
  {
    forall i | 0 <= i < |inputs| && FactsOf(inputs[i]).key.Some?
      ensures FactsOf(inputs[i]).components != [] && Lower(FactsOf(inputs[i]).components[0]) == FactsOf(inputs[i]).key.value
    {
    }
  }

  // ---- the kind does not depend on the order of the inputs

  lemma {:induction false} StatsOfRemoved(facts: seq<Facts>, i: nat, key: Name)
    requires i < |facts|
    ensures var rest := StatsOf(facts[..i] + facts[i + 1..], key);
            StatsOf(facts, key) == if facts[i].key == Some(key) then Plus(rest, facts[i].share) else rest
    decreases |facts|
  {
    var n := |facts| - 1;
    if i == n {
      assert facts[..i] + facts[i + 1..] == facts[..n];
    } else {
      var front, rest := facts[..n], facts[..i] + facts[i + 1..];
      StatsOfRemoved(front, i, key);
      assert rest[..|rest| - 1] == front[..i] + front[i + 1..];
      assert rest[|rest| - 1] == facts[n];
      PlusSwaps(StatsOf(front[..i] + front[i + 1..], key), facts[i].share, facts[n].share);
    }
  }

  lemma SameLength(a: seq<Input>, b: seq<Input>)
    requires multiset(a) == multiset(b)
    ensures |a| == |b|
  {
    assert |multiset(a)| == |a| && |multiset(b)| == |b|;
  }

  lemma RemoveOne(a: seq<Input>, b: seq<Input>) returns (i: nat)
    requires a != [] && multiset(a) == multiset(b)
    ensures i < |b| && b[i] == a[|a| - 1]
    ensures multiset(a[..|a| - 1]) == multiset(b[..i] + b[i + 1..])
  {
    var x := a[|a| - 1];
    assert x in multiset(b);
    i :| 0 <= i < |b| && b[i] == x;
    assert a == a[..|a| - 1] + [x];
    assert b == b[..i] + [x] + b[i + 1..];
    assert multiset(b[..i] + b[i + 1..]) == multiset(b) - multiset{x};
    assert multiset(a[..|a| - 1]) == multiset(a) - multiset{x};
  }

  lemma FactsOfRemoved(inputs: seq<Input>, i: nat)
    requires i < |inputs|
    ensures FactsAll(inputs[..i] + inputs[i + 1..]) == FactsAll(inputs)[..i] + FactsAll(inputs)[i + 1..]
  {
  }

  lemma FactsOfFront(inputs: seq<Input>)
    requires inputs != []
    ensures FactsAll(inputs)[..|inputs| - 1] == FactsAll(inputs[..|inputs| - 1])
  {
  }

  lemma SameStats(a: seq<Facts>, b: seq<Facts>, i: nat, key: Name)
    requires a != [] && i < |b| && a[|a| - 1] == b[i]
    requires StatsOf(a[..|a| - 1], key) == StatsOf(b[..i] + b[i + 1..], key)
    ensures StatsOf(a, key) == StatsOf(b, key)
  {
    StatsOfRemoved(b, i, key);
  }

  /** Any two listings of the same inputs give a folder the same counts, and so one kind. */
  lemma {:induction false} KindIgnoresOrder(a: seq<Input>, b: seq<Input>, key: Name)
    requires multiset(a) == multiset(b)
    ensures StatsOf(FactsAll(a), key) == StatsOf(FactsAll(b), key)
    ensures KindOf(StatsOf(FactsAll(a), key)) == KindOf(StatsOf(FactsAll(b), key))
    decreases |a|
  {
    SameLength(a, b);
    if a != [] {
      var i := RemoveOne(a, b);
      KindIgnoresOrder(a[..|a| - 1], b[..i] + b[i + 1..], key);
      FactsOfRemoved(b, i);
      FactsOfFront(a);
      SameStats(FactsAll(a), FactsAll(b), i, key);
    }
  }

  // ---- two files, one place

  /** The bases of different kinds part at their first folder. */
  lemma BasesPart(root: RootKind, j: Kind, k: Kind, a: Name, b: Name, x: Path, y: Path)
    requires Base(root, j, a) + x == Base(root, k, b) + y
    ensures j == k && a == b && x == y
  {
    var p, q := Base(root, j, a), Base(root, k, b);
    assert (p + x)[0] == p[0] && (q + y)[0] == q[0];
    FirstFolderTellsKind(root, j, k, a, b);
    assert |p| == |q|;
    assert p == (p + x)[..|p|] && q == (q + y)[..|q|];
    assert p[|p| - 1] == a && q[|q| - 1] == b;
    assert x == (p + x)[|p|..] && y == (q + y)[|q|..];
  }

  lemma FirstFolderTellsKind(root: RootKind, j: Kind, k: Kind, a: Name, b: Name)
    requires Base(root, j, a)[0] == Base(root, k, b)[0]
    ensures j == k
  {
    assert "Développement"[0] == 'D' && "Documents"[0] == 'D' && "Développement"[1] != "Documents"[1];
    assert "Travail"[0] == 'T' && "Albums"[0] == 'A' && "Collections"[0] == 'C' && "Images"[0] == 'I' && "Vidéos"[0] == 'V';
    assert "À vérifier"[0] == 'À';
  }

  /** The subtree below the top folder is kept whole. */
  lemma SubtreeIsKept(facts: seq<Facts>, root: RootKind, c: Path)
    requires Filed(facts) && |c| >= 2 && PlaceOf(facts, root, c).Some?
    ensures var place := PlaceOf(facts, root, c).value;
            |place| >= |c| && place[|place| - (|c| - 2)..] == Between(c)
            && Lower(place[|place| - (|c| - 2) - 1]) == Lower(c[0])
  {
    CanonicalTopIsFiled(facts, Lower(c[0]));
  }

  /** Two files get the same place and name exactly when, but for the case of the top
      folder, they have the same path. */
  lemma PlacesAreInjective(facts: seq<Facts>, root: RootKind, c: Path, d: Path)
    requires Filed(facts) && |c| >= 2 && |d| >= 2 && PlaceOf(facts, root, c).Some? && PlaceOf(facts, root, d).Some?
    ensures PlaceOf(facts, root, c) == PlaceOf(facts, root, d) && c[|c| - 1] == d[|d| - 1]
       <==> Lower(c[0]) == Lower(d[0]) && c[1..] == d[1..]
  {
    var j, k := Lower(c[0]), Lower(d[0]);
    CanonicalTopIsFiled(facts, j);
    CanonicalTopIsFiled(facts, k);
    if PlaceOf(facts, root, c) == PlaceOf(facts, root, d) && c[|c| - 1] == d[|d| - 1] {
      BasesPart(root, KindOf(StatsOf(facts, j)), KindOf(StatsOf(facts, k)), CanonicalTop(facts, j).value,
                CanonicalTop(facts, k).value, Between(c), Between(d));
      assert c[1..] == Between(c) + [c[|c| - 1]] && d[1..] == Between(d) + [d[|d| - 1]];
    }
    if j == k && c[1..] == d[1..] {
      assert Between(c) == c[1..][..|c| - 2] && Between(d) == d[1..][..|d| - 2];
      assert c[|c| - 1] == c[1..][|c| - 2] && d[|d| - 1] == d[1..][|d| - 2];
    }
  }

  /** A draft that the policy moves with its folder, and leaves whole. */
  predicate MovesWhole(draft: Draft, input: Input, facts: seq<Facts>, root: RootKind, depth: nat, fits: (Path, Name) -> bool) {
    var c := Components(input.path);
    && !draft.userOverride && !draft.stale && |c| >= 2 && input.name == c[|c| - 1] && PlaceOf(facts, root, c).Some?
    && |PlaceOf(facts, root, c).value| <= depth && fits(PlaceOf(facts, root, c).value, input.name)
  }

  /** Drafts of different sources never meet: two that were moved whole have one destination
      and name exactly when, but for the case of the top folder, they have one source. */
  lemma DraftsMeetExactly(x: Draft, y: Draft, a: Input, b: Input, facts: seq<Facts>, root: RootKind, depth: nat,
                          fits: (Path, Name) -> bool)
    requires Filed(facts) && MovesWhole(x, a, facts, root, depth, fits) && MovesWhole(y, b, facts, root, depth, fits)
    ensures var d, e := Rewritten(x, Some(a), facts, root, depth, fits), Rewritten(y, Some(b), facts, root, depth, fits);
            var c, f := Components(a.path), Components(b.path);
            d.destination == e.destination && d.name == e.name <==> Lower(c[0]) == Lower(f[0]) && c[1..] == f[1..]
  {
    PlacesAreInjective(facts, root, Components(a.path), Components(b.path));
  }

  /** How many folders below the top one fit the depth. */
  function FoldersLeft(facts: seq<Facts>, root: RootKind, depth: nat, c: Path): nat
    requires |c| >= 2 && PlaceOf(facts, root, c).Some? && depth >= 4
  {
    depth - |Base(root, KindOf(StatsOf(facts, Lower(c[0]))), CanonicalTop(facts, Lower(c[0])).value)|
  }

  /** What is left of the folders between the top folder and the file. */
  function KeptFolders(facts: seq<Facts>, root: RootKind, depth: nat, c: Path): Path
    requires |c| >= 2 && PlaceOf(facts, root, c).Some? && depth >= 4
  {
    Truncated(Between(c), FoldersLeft(facts, root, depth, c))
  }

  /** The base always fits; only folders below it are cut. */
  lemma PlaceByParts(facts: seq<Facts>, root: RootKind, depth: nat, c: Path)
    requires |c| >= 2 && PlaceOf(facts, root, c).Some? && depth >= 4
    ensures var base := Base(root, KindOf(StatsOf(facts, Lower(c[0]))), CanonicalTop(facts, Lower(c[0])).value);
            Truncated(PlaceOf(facts, root, c).value, depth) == base + KeptFolders(facts, root, depth, c)
  {
    var base := Base(root, KindOf(StatsOf(facts, Lower(c[0]))), CanonicalTop(facts, Lower(c[0])).value);
    TruncatedBelow(base, Between(c), depth);
  }

  /** Cut or whole, two places are one exactly when they are below one top folder, however
      cased, and what is left of the folders is the same. */
  lemma TruncatedPlacesMeetExactly(facts: seq<Facts>, root: RootKind, depth: nat, c: Path, d: Path)
    requires Filed(facts) && |c| >= 2 && |d| >= 2 && depth >= 4
    requires PlaceOf(facts, root, c).Some? && PlaceOf(facts, root, d).Some?
    ensures Truncated(PlaceOf(facts, root, c).value, depth) == Truncated(PlaceOf(facts, root, d).value, depth)
       <==> Lower(c[0]) == Lower(d[0]) && KeptFolders(facts, root, depth, c) == KeptFolders(facts, root, depth, d)
  {
    var j, k := Lower(c[0]), Lower(d[0]);
    CanonicalTopIsFiled(facts, j);
    CanonicalTopIsFiled(facts, k);
    PlaceByParts(facts, root, depth, c);
    PlaceByParts(facts, root, depth, d);
    if Truncated(PlaceOf(facts, root, c).value, depth) == Truncated(PlaceOf(facts, root, d).value, depth) {
      BasesPart(root, KindOf(StatsOf(facts, j)), KindOf(StatsOf(facts, k)), CanonicalTop(facts, j).value,
                CanonicalTop(facts, k).value, KeptFolders(facts, root, depth, c), KeptFolders(facts, root, depth, d));
    }
  }

  /** A draft that the policy moves with its folder, whole or truncated. */
  predicate Moves(draft: Draft, input: Input, facts: seq<Facts>, root: RootKind, depth: nat, fits: (Path, Name) -> bool) {
    var c := Components(input.path);
    && !draft.userOverride && !draft.stale && |c| >= 2 && input.name == c[|c| - 1] && PlaceOf(facts, root, c).Some?
    && fits(Truncated(PlaceOf(facts, root, c).value, depth), input.name)
  }

  /** Any two drafts that the policy moves, truncated or not, have one destination and name
      exactly when their sources have one name, one top folder but for case, and the same
      folders as far as they are left. */
  lemma MovedDraftsMeetExactly(x: Draft, y: Draft, a: Input, b: Input, facts: seq<Facts>, root: RootKind, depth: nat,
                               fits: (Path, Name) -> bool)
    requires Filed(facts) && depth >= 4
    requires Moves(x, a, facts, root, depth, fits) && Moves(y, b, facts, root, depth, fits)
    ensures var d, e := Rewritten(x, Some(a), facts, root, depth, fits), Rewritten(y, Some(b), facts, root, depth, fits);
            var c, f := Components(a.path), Components(b.path);
            d.destination == e.destination && d.name == e.name
            <==> c[|c| - 1] == f[|f| - 1] && Lower(c[0]) == Lower(f[0])
                 && KeptFolders(facts, root, depth, c) == KeptFolders(facts, root, depth, f)
  {
    TruncatedPlacesMeetExactly(facts, root, depth, Components(a.path), Components(b.path));
  }

  lemma TruncatedBelow(base: Path, x: Path, depth: nat)
    requires |base| <= depth
    ensures Truncated(base + x, depth) == base + Truncated(x, depth - |base|)
  {
  }

  /** Such files exist: 32 folders deep, two files of one name that differ only below. */
  lemma TruncationMerges(facts: seq<Facts>, root: RootKind, top: Name, middle: Path, a: Name, b: Name, name: Name)
    requires CanonicalTop(facts, Lower(top)).Some? && |middle| >= 31 && a != b
    ensures var c, d := [top] + middle + [a, name], [top] + middle + [b, name];
            && c != d && PlaceOf(facts, root, c) != PlaceOf(facts, root, d)
            && Truncated(PlaceOf(facts, root, c).value, 32) == Truncated(PlaceOf(facts, root, d).value, 32)
  {
    var c, d := [top] + middle + [a, name], [top] + middle + [b, name];
    assert c[|middle| + 1] == a && d[|middle| + 1] == b;
    assert Between(c) == middle + [a] && Between(d) == middle + [b];
    assert (middle + [a])[..30] == middle[..30] == (middle + [b])[..30];
    var base := Base(root, KindOf(StatsOf(facts, Lower(top))), CanonicalTop(facts, Lower(top)).value);
    var x, y := base + (middle + [a]), base + (middle + [b]);
    assert x[|base| + |middle|] == a && y[|base| + |middle|] == b;
    assert x[..32] == y[..32];
  }
}
