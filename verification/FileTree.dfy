/** The approved root as a tree of entries, and the executor's three primitives on it.
    A volume that ignores case files every entry under the lower-cased path, so the
    paths here are such filed paths. */
module FileTree {
  import opened Paths

  datatype Option<+T> = None | Some(value: T)

  /** What `same_file_state` compares. */
  datatype Fingerprint = Fingerprint(objectKey: nat, byteSize: nat, modifiedAt: int, digest: nat)

  datatype Node = File(state: Fingerprint) | Directory | Link

  type Tree = map<Path, Node>

  ghost predicate WellFormed(t: Tree) {
    forall p | p in t :: p != [] && ParentReady(t, p)
  }

  predicate IsDirectory(t: Tree, p: Path) {
    p in t && t[p].Directory?
  }

  /** The parent is the root itself or a directory that exists. */
  predicate ParentReady(t: Tree, p: Path)
    requires p != []
  {
    |p| == 1 || IsDirectory(t, Parent(p))
  }

  predicate IsEmptyDirectory(t: Tree, p: Path) {
    IsDirectory(t, p) && forall q | q in t && q != [] :: Parent(q) != p
  }

  /** `resolve_absent_destination` followed by the native call: nothing is there, every
      existing ancestor is a plain directory, and the parent exists. */
  predicate CanAppear(t: Tree, p: Path) {
    p != [] && p !in t && ParentReady(t, p) && forall n | 1 <= n < |p| && p[..n] in t :: t[p[..n]].Directory?
  }

  datatype Step =
    | CreateDirectory(path: Path)
    | Move(source: Path, destination: Path, expected: Fingerprint)
    | RemoveDirectoryIfEmpty(path: Path)

  /** Forward dispatch: `revalidate_operation`, then the worker's primitive. `None` is a
      refusal that leaves the tree alone. */
  function Apply(step: Step, t: Tree): (r: Option<Tree>) {
    match step
    case CreateDirectory(p) =>
      if CanAppear(t, p) then Some(t[p := Directory]) else None
    case Move(s, d, expected) =>
      if s in t && t[s] == File(expected) && CanAppear(t, d) then Some((t - {s})[d := t[s]]) else None
    case RemoveDirectoryIfEmpty(p) =>
      if IsEmptyDirectory(t, p) then Some(t - {p}) else None
  }

  /** Rollback dispatch: `revalidate_rollback`, then the worker's primitive. */
  function Undo(step: Step, t: Tree): (r: Option<Tree>) {
    match step
    case CreateDirectory(p) =>
      if IsEmptyDirectory(t, p) then Some(t - {p}) else None
    case Move(s, d, expected) =>
      if d in t && t[d] == File(expected) && CanAppear(t, s) then Some((t - {d})[s := t[d]]) else None
    case RemoveDirectoryIfEmpty(p) =>
      if CanAppear(t, p) then Some(t[p := Directory]) else None
  }

  lemma {:induction false} AncestorsAreDirectories(t: Tree, p: Path, n: nat)
    requires WellFormed(t) && p in t && 1 <= n < |p|
    ensures IsDirectory(t, p[..n])
    decreases |p| - n
  {
    if n < |p| - 1 {
      AncestorsAreDirectories(t, p, n + 1);
      assert Parent(p[..n + 1]) == p[..n];
    }
  }

  lemma ApplyKeepsWellFormed(step: Step, t: Tree)
    requires WellFormed(t) && Apply(step, t).Some?
    ensures WellFormed(Apply(step, t).value)
  {
  }

  /** One primitive, then its rollback: accepted, and exactly the tree from before. */
  lemma UndoRestores(step: Step, t: Tree)
    requires WellFormed(t) && Apply(step, t).Some?
    ensures Undo(step, Apply(step, t).value) == Some(t)
  {
    var after := Apply(step, t).value;
    match step
    case CreateDirectory(p) =>
      assert after - {p} == t;
    case Move(s, d, _) =>
      forall n | 1 <= n < |s| ensures s[..n] in after && after[s[..n]].Directory? {
        AncestorsAreDirectories(t, s, n);
      }
      assert Parent(s) == s[..|s| - 1];
      assert (after - {d})[s := after[d]] == t;
    case RemoveDirectoryIfEmpty(p) =>
      forall n | 1 <= n < |p| ensures p[..n] in after && after[p[..n]].Directory? {
        AncestorsAreDirectories(t, p, n);
      }
      assert Parent(p) == p[..|p| - 1];
      assert after[p := Directory] == t;
  }

  // ---- sequences of primitives

  function Replay(steps: seq<Step>, t: Tree): Option<Tree> {
    if steps == [] then Some(t)
    else match Apply(steps[0], t)
      case None => None
      case Some(u) => Replay(steps[1..], u)
  }

  lemma {:induction false} ReplayConcat(a: seq<Step>, b: seq<Step>, t: Tree)
    ensures Replay(a + b, t) == match Replay(a, t) case None => None case Some(u) => Replay(b, u)
    decreases |a|
  {
    if a == [] {
      assert a + b == b;
    } else {
      assert (a + b)[0] == a[0] && (a + b)[1..] == a[1..] + b;
      if Apply(a[0], t).Some? {
        ReplayConcat(a[1..], b, Apply(a[0], t).value);
      }
    }
  }

  lemma {:induction false} ReplayKeepsWellFormed(steps: seq<Step>, t: Tree)
    requires WellFormed(t) && Replay(steps, t).Some?
    ensures WellFormed(Replay(steps, t).value)
  {
    if steps != [] {
      ApplyKeepsWellFormed(steps[0], t);
      ReplayKeepsWellFormed(steps[1..], Apply(steps[0], t).value);
    }
  }

  lemma ReplayLast(steps: seq<Step>, last: Step, t: Tree)
    ensures Replay(steps + [last], t) == match Replay(steps, t) case None => None case Some(u) => Apply(last, u)
  {
    ReplayConcat(steps, [last], t);
    if Replay(steps, t).Some? {
      var u := Replay(steps, t).value;
      assert [last][1..] == [];
      assert Replay([last], u) == Apply(last, u);
    }
  }

  /** Undo the steps from the last to the first. */
  function Unwind(steps: seq<Step>, t: Tree): Option<Tree> {
    if steps == [] then Some(t)
    else match Undo(steps[|steps| - 1], t)
      case None => None
      case Some(u) => Unwind(steps[..|steps| - 1], u)
  }

  /** Any run that the executor accepted, undone in reverse order, is accepted step by
      step and ends at the tree it started from. */
  lemma {:induction false} UnwindRestores(steps: seq<Step>, t: Tree)
    requires WellFormed(t) && Replay(steps, t).Some?
    ensures Unwind(steps, Replay(steps, t).value) == Some(t)
  {
    if steps != [] {
      var front, last := steps[..|steps| - 1], steps[|steps| - 1];
      assert steps == front + [last];
      ReplayLast(front, last, t);
      ReplayKeepsWellFormed(front, t);
      UndoRestores(last, Replay(front, t).value);
      UnwindRestores(front, t);
    }
  }

  // ---- where files end up

  function Relocate(step: Step, p: Path): Path {
    if step.Move? && p == step.source then step.destination else p
  }

  function Locate(steps: seq<Step>, p: Path): Path {
    if steps == [] then p else Locate(steps[1..], Relocate(steps[0], p))
  }

  predicate HasFile(t: Tree, p: Path) {
    p in t && t[p].File?
  }

  /** No accepted run loses, merges, alters or invents a file. */
  ghost predicate FilesFollow(steps: seq<Step>, before: Tree, after: Tree) {
    && (forall p | HasFile(before, p) :: Locate(steps, p) in after && after[Locate(steps, p)] == before[p])
    && (forall p, q | HasFile(before, p) && HasFile(before, q) && Locate(steps, p) == Locate(steps, q) :: p == q)
    && (forall q | HasFile(after, q) :: exists p :: HasFile(before, p) && Locate(steps, p) == q)
  }

  lemma OneStepFollows(step: Step, t: Tree)
    requires Apply(step, t).Some?
    ensures var u := Apply(step, t).value;
      && (forall p | HasFile(t, p) :: Relocate(step, p) in u && u[Relocate(step, p)] == t[p])
      && (forall p, q | HasFile(t, p) && HasFile(t, q) && Relocate(step, p) == Relocate(step, q) :: p == q)
      && (forall q | HasFile(u, q) :: exists p :: HasFile(t, p) && Relocate(step, p) == q)
  {
    var u := Apply(step, t).value;
    forall q | HasFile(u, q) ensures exists p :: HasFile(t, p) && Relocate(step, p) == q {
      var p := if step.Move? && q == step.destination then step.source else q;
      assert HasFile(t, p) && Relocate(step, p) == q;
    }
  }

  lemma {:induction false} ReplayKeepsFiles(steps: seq<Step>, t: Tree)
    requires Replay(steps, t).Some?
    ensures FilesFollow(steps, t, Replay(steps, t).value)
  {
    var after := Replay(steps, t).value;
    if steps == [] {
      forall q | HasFile(after, q) ensures exists p :: HasFile(t, p) && Locate(steps, p) == q {
        assert Locate(steps, q) == q;
      }
    } else {
      var step, rest := steps[0], steps[1..];
      var u := Apply(step, t).value;
      OneStepFollows(step, t);
      ReplayKeepsFiles(rest, u);
      forall q | HasFile(after, q) ensures exists p :: HasFile(t, p) && Locate(steps, p) == q {
        var m :| HasFile(u, m) && Locate(rest, m) == q;
        var p :| HasFile(t, p) && Relocate(step, p) == m;
        assert Locate(steps, p) == q;
      }
    }
  }

  /** A run removes only directories that are empty at that moment, and links stay put. */
  lemma {:induction false} ReplayKeepsLinks(steps: seq<Step>, t: Tree, p: Path)
    requires Replay(steps, t).Some?
    requires p in t && t[p].Link?
    ensures p in Replay(steps, t).value && Replay(steps, t).value[p] == Link
  {
    if steps != [] {
      ReplayKeepsLinks(steps[1..], Apply(steps[0], t).value, p);
    }
  }
}
