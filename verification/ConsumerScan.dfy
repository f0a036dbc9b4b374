/** The consumer scan: every directory entry is accounted for once, and batches add up to what was collected. */
module ConsumerScan {
  import opened FileTree

  const BATCH_SIZE := 256

  /** What inspecting a regular file yields. */
  datatype Inspection = Concealed | Inspected(placeholder: bool) | Refused(code: string, isError: bool)

  /** An entry of the directory, as the loop tells entries apart. */
  datatype Entry = Unreadable | DotName | Typeless | Folder | Alias | Special | Regular(inspection: Inspection)

  datatype Issue = Issue(entry: nat, code: string, isError: bool)

  /** What `append_consumer_scan_batch` writes at once. */
  datatype Batch = Batch(files: seq<nat>, issues: seq<Issue>)

  /** How an entry is accounted for. */
  datatype Account = CountedDirectory | SkippedItem | CollectedFile

  function AccountOf(e: Entry): Account {
    match e
    case Folder => CountedDirectory
    case Regular(Inspected(placeholder)) => if placeholder then SkippedItem else CollectedFile
    case _ => SkippedItem
  }

  function IssueOf(e: Entry, i: nat): Option<Issue> {
    match e
    case Unreadable => Some(Issue(i, "directory_entry_unreadable", true))
    case Typeless => Some(Issue(i, "metadata_unavailable", true))
    case Alias => Some(Issue(i, "reparse_point", false))
    case Regular(Refused(code, isError)) => Some(Issue(i, code, isError))
    case Regular(Inspected(placeholder)) => if placeholder then Some(Issue(i, "cloud_placeholder", false)) else None
    case _ => None
  }

  /** The entries, in order, that are persisted as files. */
  function FilesOf(entries: seq<Entry>, n: nat): seq<nat>
    requires n <= |entries|
  {
    if n == 0 then [] else FilesOf(entries, n - 1) + (if AccountOf(entries[n - 1]) == CollectedFile then [n - 1] else [])
  }

  function IssuesOf(entries: seq<Entry>, n: nat): seq<Issue>
    requires n <= |entries|
  {
    if n == 0 then []
    else
      var issue := IssueOf(entries[n - 1], n - 1);
      IssuesOf(entries, n - 1) + (if issue.Some? then [issue.value] else [])
  }

  function Count(entries: seq<Entry>, n: nat, account: Account): nat
    requires n <= |entries|
  {
    if n == 0 then 0 else Count(entries, n - 1, account) + (if AccountOf(entries[n - 1]) == account then 1 else 0)
  }

  function ErrorsIn(issues: seq<Issue>): nat {
    if issues == [] then 0 else ErrorsIn(issues[..|issues| - 1]) + (if issues[|issues| - 1].isError then 1 else 0)
  }

  /** Directories, skipped items and persisted files are all the entries, each once. */
  lemma {:induction false} AccountedOnce(entries: seq<Entry>, n: nat)
    requires n <= |entries|
    ensures Count(entries, n, CountedDirectory) + Count(entries, n, SkippedItem) + |FilesOf(entries, n)| == n
    ensures forall i | 0 <= i < n :: i in FilesOf(entries, n) <==> AccountOf(entries[i]) == CollectedFile
    ensures forall j, k | 0 <= j < k < |FilesOf(entries, n)| :: FilesOf(entries, n)[j] < FilesOf(entries, n)[k] < n
  {
    if n > 0 {
      AccountedOnce(entries, n - 1);
      var before := FilesOf(entries, n - 1);
      FilesAreBelow(entries, n - 1);
      assert forall k | 0 <= k < |before| :: before[k] in before;
    }
  }

  lemma {:induction false} FilesAreBelow(entries: seq<Entry>, n: nat)
    requires n <= |entries|
    ensures forall f | f in FilesOf(entries, n) :: f < n
  {
    if n > 0 {
      FilesAreBelow(entries, n - 1);
    }
  }

  // ---- batches

  /** What was written, and what waits in the two buffers. */
  datatype Buffers = Buffers(batches: seq<Batch>, files: seq<nat>, issues: seq<Issue>)

  function Held(b: Buffers): nat {
    |b.files| + |b.issues|
  }

  /** `flush_consumer_batch`, when the database accepts the batch. */
  function Flushed(b: Buffers): Buffers {
    if Held(b) == 0 then b else Buffers(b.batches + [Batch(b.files, b.issues)], [], [])
  }

  function Collected(b: Buffers, e: Entry, i: nat): Buffers {
    Buffers(b.batches,
            b.files + (if AccountOf(e) == CollectedFile then [i] else []),
            b.issues + (if IssueOf(e, i).Some? then [IssueOf(e, i).value] else []))
  }

  /** The loop as the patch script writes it, and as the scanner has it now. */
  datatype Form = Scripted | Current

  /** Whether the loop looks at the buffers after `e`, and finds them full. */
  predicate Full(form: Form, b: Buffers, e: Entry) {
    match (form, e)
    case (Current, _) => Held(b) >= BATCH_SIZE
    case (Scripted, Unreadable) => |b.issues| >= BATCH_SIZE
    case (Scripted, Regular(inspection)) => !inspection.Concealed? && Held(b) >= BATCH_SIZE
    case _ => false
  }

  function AfterEntry(form: Form, b: Buffers, e: Entry, i: nat): Buffers {
    if Full(form, Collected(b, e, i), e) then Flushed(Collected(b, e, i)) else Collected(b, e, i)
  }

  function Buffered(form: Form, entries: seq<Entry>, n: nat): Buffers
    requires n <= |entries|
  {
    if n == 0 then Buffers([], [], []) else AfterEntry(form, Buffered(form, entries, n - 1), entries[n - 1], n - 1)
  }

  function FilesIn(batches: seq<Batch>): seq<nat> {
    if batches == [] then [] else FilesIn(batches[..|batches| - 1]) + batches[|batches| - 1].files
  }

  function IssuesIn(batches: seq<Batch>): seq<Issue> {
    if batches == [] then [] else IssuesIn(batches[..|batches| - 1]) + batches[|batches| - 1].issues
  }

  lemma FlushKeeps(b: Buffers)
    ensures FilesIn(Flushed(b).batches) + Flushed(b).files == FilesIn(b.batches) + b.files
    ensures IssuesIn(Flushed(b).batches) + Flushed(b).issues == IssuesIn(b.batches) + b.issues
    ensures Held(Flushed(b)) == 0
  {
    if Held(b) > 0 {
      assert Flushed(b).batches[..|b.batches|] == b.batches;
    }
  }

  /** Batches and buffers together are everything that was collected, in order. */
  lemma {:induction false} BatchesAddUp(form: Form, entries: seq<Entry>, n: nat)
    requires n <= |entries|
    ensures FilesIn(Buffered(form, entries, n).batches) + Buffered(form, entries, n).files == FilesOf(entries, n)
    ensures IssuesIn(Buffered(form, entries, n).batches) + Buffered(form, entries, n).issues == IssuesOf(entries, n)
  {
    if n > 0 {
      var b, e := Buffered(form, entries, n - 1), entries[n - 1];
      BatchesAddUp(form, entries, n - 1);
      AfterEntryAdds(form, b, e, n - 1);
    }
  }

  lemma AfterEntryAdds(form: Form, b: Buffers, e: Entry, i: nat)
    ensures var after := AfterEntry(form, b, e, i);
            && FilesIn(after.batches) + after.files
               == FilesIn(b.batches) + b.files + (if AccountOf(e) == CollectedFile then [i] else [])
            && IssuesIn(after.batches) + after.issues
               == IssuesIn(b.batches) + b.issues + (if IssueOf(e, i).Some? then [IssueOf(e, i).value] else [])
  {
    FlushKeeps(Collected(b, e, i));
    CollectedAdds(b, e, i);
  }

  lemma CollectedAdds(b: Buffers, e: Entry, i: nat)
    ensures FilesIn(Collected(b, e, i).batches) + Collected(b, e, i).files
         == FilesIn(b.batches) + b.files + (if AccountOf(e) == CollectedFile then [i] else [])
    ensures IssuesIn(Collected(b, e, i).batches) + Collected(b, e, i).issues
         == IssuesIn(b.batches) + b.issues + (if IssueOf(e, i).Some? then [IssueOf(e, i).value] else [])
  {
    Reassociate(FilesIn(b.batches), b.files, if AccountOf(e) == CollectedFile then [i] else []);
    Reassociate(IssuesIn(b.batches), b.issues, if IssueOf(e, i).Some? then [IssueOf(e, i).value] else []);
  }

  lemma Reassociate<T>(a: seq<T>, b: seq<T>, c: seq<T>)
    ensures a + (b + c) == (a + b) + c
  {
  }

  // ---- how large a batch may be

  /** Entries whose issue is not followed by the full test of the buffers. */
  predicate IsUnchecked(e: Entry) {
    e.Unreadable? || e.Typeless? || e.Alias?
  }

  function Unchecked(entries: seq<Entry>, n: nat): nat
    requires n <= |entries|
  {
    if n == 0 then 0 else Unchecked(entries, n - 1) + (if IsUnchecked(entries[n - 1]) then 1 else 0)
  }

  ghost predicate Within(batches: seq<Batch>, bound: nat) {
    forall k | 0 <= k < |batches| :: 0 < |batches[k].files| + |batches[k].issues| <= bound
  }

  /** Checked after every entry, every batch is full, and the rest is less than that. */
  lemma {:induction false} CurrentBatchesAreFull(entries: seq<Entry>, n: nat)
    requires n <= |entries|
    ensures var b := Buffered(Current, entries, n);
      && Held(b) < BATCH_SIZE
      && forall k | 0 <= k < |b.batches| :: |b.batches[k].files| + |b.batches[k].issues| == BATCH_SIZE
  {
    if n > 0 {
      CurrentBatchesAreFull(entries, n - 1);
      assert Held(Collected(Buffered(Current, entries, n - 1), entries[n - 1], n - 1))
             <= Held(Buffered(Current, entries, n - 1)) + 1;
    }
  }

  /** Both forms write the same files and issues in the same order. */
  lemma FormsWriteTheSame(entries: seq<Entry>, n: nat)
    requires n <= |entries|
    ensures var s, c := Flushed(Buffered(Scripted, entries, n)), Flushed(Buffered(Current, entries, n));
            FilesIn(s.batches) == FilesIn(c.batches) && IssuesIn(s.batches) == IssuesIn(c.batches)
  {
    BatchesAddUp(Scripted, entries, n);
    BatchesAddUp(Current, entries, n);
    EverythingIsWritten(Buffered(Scripted, entries, n));
    EverythingIsWritten(Buffered(Current, entries, n));
  }

  lemma EverythingIsWritten(b: Buffers)
    ensures FilesIn(Flushed(b).batches) == FilesIn(b.batches) + b.files
    ensures IssuesIn(Flushed(b).batches) == IssuesIn(b.batches) + b.issues
  {
    FlushKeeps(b);
    var f := Flushed(b);
    assert FilesIn(f.batches) + f.files == FilesIn(f.batches) && IssuesIn(f.batches) + f.issues == IssuesIn(f.batches);
  }

  /** As scripted, a batch exceeds the size by no more than the unchecked entries. */
  lemma {:induction false} BatchesAreBounded(form: Form, entries: seq<Entry>, n: nat)
    requires n <= |entries|
    ensures Within(Flushed(Buffered(form, entries, n)).batches, BATCH_SIZE + Unchecked(entries, n))
    ensures Within(Buffered(form, entries, n).batches, BATCH_SIZE + Unchecked(entries, n))
    ensures Held(Buffered(form, entries, n)) < BATCH_SIZE + Unchecked(entries, n)
  {
    if n > 0 {
      BatchesAreBounded(form, entries, n - 1);
      var b := Buffered(form, entries, n - 1);
      assert Within(b.batches, BATCH_SIZE + Unchecked(entries, n));
      assert Held(Collected(b, entries[n - 1], n - 1)) <= Held(b) + 1;
    }
  }

  /** The size is no bound: any number of aliases ends up in one batch. */
  lemma {:induction false} AliasesAreOneBatch(n: nat)
    ensures var entries := seq(n, _ => Alias);
      && Buffered(Scripted, entries, n).batches == [] && Held(Buffered(Scripted, entries, n)) == n
      && (n > 0 ==> Flushed(Buffered(Scripted, entries, n)).batches == [Batch([], IssuesOf(entries, n))] && |IssuesOf(entries, n)| == n)
  {
    var b := Buffered(Scripted, seq(n, _ => Alias), n);
    AliasesWait(n, n);
    BatchesAddUp(Scripted, seq(n, _ => Alias), n);
    assert IssuesIn(b.batches) + b.issues == b.issues;
  }

  lemma {:induction false} AliasesWait(n: nat, i: nat)
    requires i <= n
    ensures Buffered(Scripted, seq(n, _ => Alias), i).batches == [] && Buffered(Scripted, seq(n, _ => Alias), i).files == []
    ensures |Buffered(Scripted, seq(n, _ => Alias), i).issues| == i
  {
    if i > 0 {
      AliasesWait(n, i - 1);
    }
  }

  // ---- the loop

  datatype ScanStatus = ScanCompleted | ScanCancelled | ScanFailed

  class Scan {
    var files: seq<nat>
    var issues: seq<Issue>
    /** What the database accepted. */
    var batches: seq<Batch>
    var directories: nat
    var discovered: nat
    var skipped: nat
    var errors: nat
    var persistedFiles: nat
    var issueCount: nat

    /** After the first `n` entries. */
    ghost predicate Valid(form: Form, entries: seq<Entry>, n: nat)
      requires n <= |entries|
      reads this
    {
      && Buffers(batches, files, issues) == Buffered(form, entries, n)
      && directories == Count(entries, n, CountedDirectory) && skipped == Count(entries, n, SkippedItem)
      && errors == ErrorsIn(IssuesOf(entries, n)) && Totals()
    }

    ghost predicate Totals()
      reads this
    {
      persistedFiles == |FilesIn(batches)| && issueCount == |IssuesIn(batches)|
    }

    constructor ()
      ensures batches == [] && files == [] && issues == []
      ensures directories == discovered == skipped == errors == persistedFiles == issueCount == 0
    {
      files, issues, batches := [], [], [];
      directories, discovered, skipped, errors, persistedFiles, issueCount := 0, 0, 0, 0, 0, 0;
    }

    /** `flush_consumer_batch` and the two totals. */
    method Flush(accepted: bool) returns (ok: bool)
      requires Totals()
      modifies this`files, this`issues, this`batches, this`persistedFiles, this`issueCount
      ensures Totals() && (!ok ==> unchanged(this))
      ensures ok ==> Buffers(batches, files, issues) == Flushed(old(Buffers(batches, files, issues)))
      ensures accepted ==> ok
    {
      if |files| == 0 && |issues| == 0 {
        return true;
      }
      if !accepted {
        return false;
      }
      assert (batches + [Batch(files, issues)])[..|batches|] == batches;
      batches, persistedFiles, issueCount := batches + [Batch(files, issues)], persistedFiles + |files|, issueCount + |issues|;
      files, issues := [], [];
      ok := true;
    }

    /** The counters and the buffers for one entry. */
    method Collect(e: Entry, i: nat)
      modifies this`files, this`issues, this`directories, this`discovered, this`skipped, this`errors
      ensures Buffers(batches, files, issues) == Collected(old(Buffers(batches, files, issues)), e, i)
      ensures directories == old(directories) + (if AccountOf(e) == CountedDirectory then 1 else 0)
      ensures skipped == old(skipped) + (if AccountOf(e) == SkippedItem then 1 else 0)
      ensures errors == old(errors) + (if IssueOf(e, i).Some? && IssueOf(e, i).value.isError then 1 else 0)
      ensures discovered == old(discovered) + (if e.Regular? && e.inspection.Inspected? then 1 else 0)
    {
      match e
      case Unreadable =>
        errors, skipped := errors + 1, skipped + 1;
        issues := issues + [Issue(i, "directory_entry_unreadable", true)];
      case DotName =>
        skipped := skipped + 1;
      case Typeless =>
        errors, skipped := errors + 1, skipped + 1;
        issues := issues + [Issue(i, "metadata_unavailable", true)];
      case Folder =>
        directories := directories + 1;
      case Alias =>
        skipped := skipped + 1;
        issues := issues + [Issue(i, "reparse_point", false)];
      case Special =>
        skipped := skipped + 1;
      case Regular(Concealed) =>
        skipped := skipped + 1;
      case Regular(Inspected(placeholder)) =>
        discovered := discovered + 1;
        if placeholder {
          issues := issues + [Issue(i, "cloud_placeholder", false)];
          skipped := skipped + 1;
        } else {
          files := files + [i];
        }
      case Regular(Refused(code, isError)) =>
        if isError {
          errors := errors + 1;
        }
        skipped := skipped + 1;
        issues := issues + [Issue(i, code, isError)];
    }

    /** One turn of the loop. */
    method Visit(form: Form, entries: seq<Entry>, i: nat, accepted: bool) returns (ok: bool)
      requires i < |entries| && Valid(form, entries, i)
      modifies this
      ensures ok ==> Valid(form, entries, i + 1)
      ensures !ok ==> batches == old(batches) && Totals()
      ensures accepted ==> ok
    {
      ok := true;
      ErrorsNext(entries, i);
      Collect(entries[i], i);
      if Full(form, Buffers(batches, files, issues), entries[i]) {
        ok := Flush(accepted);
      }
    }

    /** The scan: `cancelled` is asked before each entry, `accepts` answers for each batch. */
    method Run(form: Form, entries: seq<Entry>, cancelled: nat -> bool, accepts: nat -> bool) returns (status: ScanStatus, visited: nat)
      requires Valid(form, entries, 0)
      modifies this
      ensures visited <= |entries| && Totals()
      ensures status == ScanCompleted ==> visited == |entries|
      ensures status == ScanCancelled ==> visited < |entries| && cancelled(visited)
      ensures status != ScanFailed ==> batches == Flushed(Buffered(form, entries, visited)).batches
      ensures status != ScanFailed ==> FilesIn(batches) == FilesOf(entries, visited) && IssuesIn(batches) == IssuesOf(entries, visited)
      ensures status != ScanFailed ==> directories + skipped + persistedFiles == visited && issueCount == |IssuesOf(entries, visited)|
      ensures status == ScanFailed ==> batches == Buffered(form, entries, visited).batches
      ensures status == ScanFailed ==> FilesIn(batches) <= FilesOf(entries, visited) && IssuesIn(batches) <= IssuesOf(entries, visited)
    {
      visited, status := 0, ScanCompleted;
      while visited < |entries| && status == ScanCompleted
        invariant visited <= |entries| && Valid(form, entries, visited)
        invariant status == ScanCompleted || (status == ScanCancelled && visited < |entries| && cancelled(visited))
        decreases |entries| - visited, status == ScanCompleted
      {
        if cancelled(visited) {
          status := ScanCancelled;
        } else {
          BatchesAddUp(form, entries, visited);
          var ok := Visit(form, entries, visited, accepts(|batches|));
          if !ok {
            return ScanFailed, visited;
          }
          visited := visited + 1;
        }
      }
      BatchesAddUp(form, entries, visited);
      FlushKeeps(Buffers(batches, files, issues));
      AccountedOnce(entries, visited);
      var ok := Flush(accepts(|batches|));
      if !ok {
        status := ScanFailed;
      }
    }
  }

  lemma ErrorsNext(entries: seq<Entry>, i: nat)
    requires i < |entries|
    ensures ErrorsIn(IssuesOf(entries, i + 1))
         == ErrorsIn(IssuesOf(entries, i)) + (if IssueOf(entries[i], i).Some? && IssueOf(entries[i], i).value.isError then 1 else 0)
  {
    var before, issue := IssuesOf(entries, i), IssueOf(entries[i], i);
    if issue.Some? {
      assert IssuesOf(entries, i + 1) == before + [issue.value];
      assert (before + [issue.value])[..|before|] == before;
    } else {
      assert IssuesOf(entries, i + 1) == before;
    }
  }
}
