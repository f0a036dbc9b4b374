/** Proposals from generation to an approved plan. */
module ProposalState {
  import opened Paths
  import opened FileTree
  import opened Simulation

  type Ids = map<nat, nat>

  datatype RuntimeProposal = RuntimeProposal(revision: Revision, simulation: Option<Outcome>)

  datatype PlanStep =
    | CreateFolder(root: nat, path: Path)
    | Rename(item: nat, root: nat, source: Path, destination: Path)

  /** What the digest of a sealed plan covers. */
  datatype PlanBody = PlanBody(id: nat, of: Revision, steps: seq<PlanStep>)

  datatype RuntimePlan = RuntimePlan(body: PlanBody, approved: bool)

  datatype SealError = Unknown | ReviewIncomplete | SimulationBlocked | StaleSimulation | EmptyPlan

  const MAXIMUM_REVISION := 0xFFFF_FFFF

  /** `can_be_sealed`. */
  predicate CanBeSealed(items: seq<Item>) {
    && items != []
    && (forall i | 0 <= i < |items| :: items[i].review in {Accepted, Rejected} || !Mutates(items[i].action))
    && exists i | 0 <= i < |items| :: items[i].review == Accepted
  }

  /** `decide`. */
  function Decided(item: Item, accept: bool): Option<Item> {
    if item.review in {Blocked, Stale} then None else Some(item.(review := if accept then Accepted else Rejected))
  }

  /** What a polled change hint does to an item. */
  function Unsettled(item: Item): Item {
    if Mutates(item.action) && item.review != Rejected then item.(review := Stale) else item
  }

  function UnsettledAll(items: seq<Item>): (after: seq<Item>)
    ensures |after| == |items| && forall i | 0 <= i < |items| :: after[i] == Unsettled(items[i])
  {
    seq(|items|, i requires 0 <= i < |items| => Unsettled(items[i]))
  }

  function CreateSteps(directories: seq<(nat, Path)>): (steps: seq<PlanStep>)
    ensures |steps| == |directories|
  {
    seq(|directories|, x requires 0 <= x < |directories| => CreateFolder(directories[x].0, directories[x].1))
  }

  function IsAccepted(items: seq<Item>, id: nat): bool {
    if items == [] then false
    else
      var last := items[|items| - 1];
      if last.id == id then last.review == Accepted && Mutates(last.action) else IsAccepted(items[..|items| - 1], id)
  }

  /** The moves of accepted items; `compile_plan` skips the others. */
  function RenameSteps(items: seq<Item>, moves: seq<PlannedMove>): seq<PlanStep> {
    if moves == [] then []
    else
      var last := moves[|moves| - 1];
      RenameSteps(items, moves[..|moves| - 1])
      + (if IsAccepted(items, last.item) then [Rename(last.item, last.root, last.source, last.destination)] else [])
  }

  /** `compile_plan` and the checks of `seal`. Every step carries its inverse. */
  function Compile(id: nat, revision: Revision, outcome: Outcome): (r: Option<PlanBody>)
    ensures r.Some? ==> outcome.of == revision && r.value.of == revision && r.value.id == id
  {
    if outcome.of != revision then None
    else
      var steps := StepsOf(revision.items, outcome);
      if steps == [] then None else Some(PlanBody(id, revision, steps))
  }

  // ---- what a sealed plan is

  ghost predicate DistinctItems(items: seq<Item>) {
    forall i, j | 0 <= i < j < |items| :: items[i].id != items[j].id
  }

  /** What a simulation was made from: the scan and the folders it saw, its outcome, and how
      often the proposal had changed by then. */
  datatype Basis = Basis(workspace: nat, scan: RootScan, existing: set<(nat, string)>, outcome: Outcome, at: nat)

  ghost predicate IsBasis(revision: Revision, basis: Basis) {
    basis.workspace == revision.workspace && Simulated(revision, basis.scan, basis.existing, basis.outcome)
  }

  /** The steps of the outcome: its folders first, then its moves of accepted items. */
  function StepsOf(items: seq<Item>, outcome: Outcome): seq<PlanStep> {
    CreateSteps(outcome.directories) + RenameSteps(items, outcome.moves)
  }

  /** A plan that was sealed from an unblocked simulation of its revision. */
  ghost predicate PlanSound(body: PlanBody, basis: Basis) {
    && IsBasis(body.of, basis) && basis.outcome.blockers == [] && CanBeSealed(body.of.items) && DistinctItems(body.of.items)
    && body.steps == StepsOf(body.of.items, basis.outcome)
  }

  lemma {:induction false} AcceptedAt(items: seq<Item>, i: nat)
    requires DistinctItems(items) && i < |items|
    ensures IsAccepted(items, items[i].id) <==> items[i].review == Accepted && Mutates(items[i].action)
  {
    if i < |items| - 1 {
      AcceptedAt(items[..|items| - 1], i);
    }
  }

  lemma {:induction false} PendingAreItems(items: seq<Item>, k: nat)
    requires k < |Pending(items)|
    ensures exists i :: 0 <= i < |items| && items[i] == Pending(items)[k]
  {
    var front := items[..|items| - 1];
    if k < |Pending(front)| {
      PendingAreItems(front, k);
    } else {
      assert items[|items| - 1] == Pending(items)[k];
    }
  }

  lemma {:induction false} AllRenamed(items: seq<Item>, moves: seq<PlannedMove>)
    requires forall k | 0 <= k < |moves| :: IsAccepted(items, moves[k].item)
    ensures |RenameSteps(items, moves)| == |moves|
    ensures forall k | 0 <= k < |moves| ::
              RenameSteps(items, moves)[k] == Rename(moves[k].item, moves[k].root, moves[k].source, moves[k].destination)
  {
    if moves != [] {
      AllRenamed(items, moves[..|moves| - 1]);
    }
  }

  /** A revision that can be sealed moves exactly its pending items: no move is skipped. */
  lemma SealedMovesThePending(revision: Revision, scan: RootScan, outcome: Outcome)
    requires DistinctItems(revision.items) && CanBeSealed(revision.items)
    requires Places(Pending(revision.items), revision.items, scan, outcome.moves)
    ensures |RenameSteps(revision.items, outcome.moves)| == |Pending(revision.items)|
    ensures forall k | 0 <= k < |Pending(revision.items)| ::
              RenameSteps(revision.items, outcome.moves)[k]
              == Rename(outcome.moves[k].item, scan.root, outcome.moves[k].source, Pending(revision.items)[k].action.path)
  {
    var items, pending := revision.items, Pending(revision.items);
    forall k | 0 <= k < |pending| ensures IsAccepted(items, outcome.moves[k].item) {
      PendingAreItems(items, k);
      var i :| 0 <= i < |items| && items[i] == pending[k];
      AcceptedAt(items, i);
    }
    AllRenamed(items, outcome.moves);
  }

  /** What a caller can check before sealing. */
  predicate Sealable(p: RuntimeProposal) {
    CanBeSealed(p.revision.items) && p.simulation.Some? && p.simulation.value.blockers == [] && Pending(p.revision.items) != []
  }

  lemma FolderIsPlanned(existing: set<(nat, string)>, planned: set<(nat, string)>, directories: seq<(nat, Path)>)
    requires CreatesEach(existing, planned, directories) && directories != []
    ensures planned != {}
  {
    assert DirectoryKey(directories[0]) in planned;
  }

  /** Folders are planned only for a pending item. */
  lemma FolderNeedsItem(revision: Revision, basis: Basis)
    requires basis.outcome.blockers == [] && IsBasis(revision, basis) && basis.outcome.directories != []
    ensures Pending(revision.items) != []
  {
    var planned :| PlansNeeded(Pending(revision.items), planned) && CreatesEach(basis.existing, planned, basis.outcome.directories);
    FolderIsPlanned(basis.existing, planned, basis.outcome.directories);
    var key :| key in planned;
    assert NeededKey(Pending(revision.items), key);
  }

  /** With an unblocked simulation of the revision, sealing fails only for want of a move. */
  lemma CompilesExactly(id: nat, revision: Revision, basis: Basis)
    requires DistinctItems(revision.items) && CanBeSealed(revision.items) && basis.outcome.blockers == []
    requires IsBasis(revision, basis)
    ensures basis.outcome.of == revision && (Compile(id, revision, basis.outcome).Some? <==> Pending(revision.items) != [])
    ensures Compile(id, revision, basis.outcome).Some? ==> PlanSound(Compile(id, revision, basis.outcome).value, basis)
  {
    StepsExactly(revision, basis);
  }

  /** A plan of an unblocked simulation has steps exactly when something is pending. */
  lemma StepsExactly(revision: Revision, basis: Basis)
    requires DistinctItems(revision.items) && CanBeSealed(revision.items) && basis.outcome.blockers == []
    requires IsBasis(revision, basis)
    ensures basis.outcome.of == revision
    ensures StepsOf(revision.items, basis.outcome) == [] <==> Pending(revision.items) == []
  {
    SealedMovesThePending(revision, basis.scan, basis.outcome);
    if basis.outcome.directories != [] {
      FolderNeedsItem(revision, basis);
    }
  }

  /** A stored simulation is the outcome of its basis, for the current revision, with no
      decision and no change hint in between. */
  ghost predicate Current(id: nat, p: RuntimeProposal, changes: map<nat, nat>, simulatedFrom: map<nat, Basis>) {
    && p.revision.id == id && DistinctItems(p.revision.items) && id in changes
    && (p.simulation.Some? ==>
          id in simulatedFrom && simulatedFrom[id].at == changes[id] && p.simulation.value == simulatedFrom[id].outcome
          && IsBasis(p.revision, simulatedFrom[id]))
  }

  /** The content of the polled proposals changes. */
  ghost function PolledChanges(changes: map<nat, nat>, proposals: map<nat, RuntimeProposal>, workspace: nat): map<nat, nat> {
    map id | id in changes ::
      if id in proposals && proposals[id].revision.workspace == workspace then changes[id] + 1 else changes[id]
  }

  lemma PolledIsCurrent(id: nat, proposals: map<nat, RuntimeProposal>, changes: map<nat, nat>, simulatedFrom: map<nat, Basis>, workspace: nat)
    requires id in proposals && Current(id, proposals[id], changes, simulatedFrom)
    ensures Current(id, Polled(proposals[id], workspace), PolledChanges(changes, proposals, workspace), simulatedFrom)
  {
    assert forall i | 0 <= i < |proposals[id].revision.items| ::
        UnsettledAll(proposals[id].revision.items)[i].id == proposals[id].revision.items[i].id;
  }

  datatype SealResult = Sealed(body: PlanBody) | Refused(error: SealError)

  /** The checks of `seal_plan` on one proposal, in order. */
  function TrySeal(planId: nat, p: RuntimeProposal): SealResult {
    if !CanBeSealed(p.revision.items) || p.simulation.None? then Refused(ReviewIncomplete)
    else if p.simulation.value.blockers != [] then Refused(SimulationBlocked)
    else
      var body := Compile(planId, p.revision, p.simulation.value);
      if body.Some? then Sealed(body.value)
      else Refused(if p.simulation.value.of != p.revision then StaleSimulation else EmptyPlan)
  }

  ghost predicate Explained(planId: nat, p: RuntimeProposal, basis: Basis, r: SealResult) {
    && (r.Sealed? <==> Sealable(p)) && (r.Refused? ==> r.error !in {StaleSimulation, Unknown})
    && (r.Sealed? ==> p.simulation == Some(basis.outcome) && PlanSound(r.body, basis) && r.body.id == planId && r.body.of == p.revision)
  }

  /** In a reachable state the checks fail only for what a caller can see, and what is sealed
      are the steps of the stored simulation. */
  lemma SealedExactly(planId: nat, id: nat, p: RuntimeProposal, changes: map<nat, nat>, simulatedFrom: map<nat, Basis>)
    requires Current(id, p, changes, simulatedFrom)
    ensures p.simulation.Some? ==> Explained(planId, p, simulatedFrom[id], TrySeal(planId, p))
    ensures p.simulation.None? ==> TrySeal(planId, p) == Refused(ReviewIncomplete)
  {
    if CanBeSealed(p.revision.items) && p.simulation.Some? && p.simulation.value.blockers == [] {
      CompilesExactly(planId, p.revision, simulatedFrom[id]);
    }
  }

  ghost predicate ProposalsSound(proposals: map<nat, RuntimeProposal>, next: nat, changes: map<nat, nat>, simulatedFrom: map<nat, Basis>) {
    forall id | id in proposals :: id < next && Current(id, proposals[id], changes, simulatedFrom)
  }

  /** Every plan is sealed from the basis that is on record for it. */
  ghost predicate PlansSound(plans: map<nat, RuntimePlan>, next: nat, sealedFrom: map<nat, Basis>) {
    forall id | id in plans :: id < next && id in sealedFrom && OnRecord(id, plans[id].body, sealedFrom[id])
  }

  ghost predicate OnRecord(id: nat, body: PlanBody, basis: Basis) {
    body.id == id && PlanSound(body, basis)
  }

  ghost predicate PlansStay(before: map<nat, RuntimePlan>, after: map<nat, RuntimePlan>) {
    forall id | id in before ::
      id in after && after[id].body == before[id].body && (before[id].approved ==> after[id].approved)
  }

  ghost predicate BasesStay(plans: map<nat, RuntimePlan>, before: map<nat, Basis>, after: map<nat, Basis>) {
    forall id | id in plans && id in before :: id in after && after[id] == before[id]
  }

  /** The scans on record were scans of their workspace. */
  ghost predicate FromHistory(bases: map<nat, Basis>, scanned: set<(nat, RootScan)>) {
    forall id | id in bases :: (bases[id].workspace, bases[id].scan) in scanned
  }

  ghost predicate StaleItemsKept(before: seq<Item>, after: seq<Item>) {
    |after| == |before| && forall i | 0 <= i < |before| && before[i].review == Stale :: after[i] == before[i]
  }

  ghost predicate StaleKept(before: map<nat, RuntimeProposal>, after: map<nat, RuntimeProposal>) {
    forall id | id in before :: id in after && StaleItemsKept(before[id].revision.items, after[id].revision.items)
  }

  lemma PlansUntouched(plans: map<nat, RuntimePlan>, sealedFrom: map<nat, Basis>)
    ensures PlansStay(plans, plans) && BasesStay(plans, sealedFrom, sealedFrom)
  {
  }

  lemma ReviewedKeepsStale(before: map<nat, RuntimeProposal>, after: map<nat, RuntimeProposal>, id: nat, i: nat, item: nat,
                           accept: bool)
    requires Reviewed(before, after, id, i, item, accept)
    ensures StaleKept(before, after)
  {
    forall other | other in before ensures other in after && StaleItemsKept(before[other].revision.items, after[other].revision.items) {
      assert other != id ==> after[other] == before[other];
    }
  }

  lemma OtherKeepsStale(proposals: map<nat, RuntimeProposal>, id: nat, p: RuntimeProposal)
    requires id in proposals ==> p.revision.items == proposals[id].revision.items
    ensures StaleKept(proposals, proposals[id := p])
  {
  }

  lemma DecidedKeepsIds(items: seq<Item>, i: nat, item: Item)
    requires DistinctItems(items) && i < |items| && item.id == items[i].id
    ensures DistinctItems(items[i := item])
  {
  }

  lemma PlanAdded(plans: map<nat, RuntimePlan>, next: nat, sealedFrom: map<nat, Basis>, body: PlanBody, basis: Basis)
    requires PlansSound(plans, next, sealedFrom) && PlanSound(body, basis) && body.id == next
    ensures PlansSound(plans[next := RuntimePlan(body, false)], next + 1, sealedFrom[next := basis])
  {
    assert OnRecord(next, body, basis);
  }

  lemma OldPlansStay(plans: map<nat, RuntimePlan>, sealedFrom: map<nat, Basis>, id: nat, plan: RuntimePlan, basis: Basis)
    requires id !in plans
    ensures PlansStay(plans, plans[id := plan]) && BasesStay(plans, sealedFrom, sealedFrom[id := basis])
  {
  }

  lemma PlanStored(plans: map<nat, RuntimePlan>, next: nat, sealedFrom: map<nat, Basis>, scanned: set<(nat, RootScan)>, body: PlanBody,
                   basis: Basis)
    requires PlansSound(plans, next, sealedFrom) && PlanSound(body, basis) && body.id == next
    requires FromHistory(sealedFrom, scanned) && (basis.workspace, basis.scan) in scanned
    ensures body.id !in plans && FromHistory(sealedFrom[body.id := basis], scanned)
    ensures PlansSound(plans[body.id := RuntimePlan(body, false)], next + 1, sealedFrom[body.id := basis])
    ensures PlansStay(plans, plans[body.id := RuntimePlan(body, false)]) && BasesStay(plans, sealedFrom, sealedFrom[body.id := basis])
  {
    assert body.id !in plans;
    PlanAdded(plans, next, sealedFrom, body, basis);
    OldPlansStay(plans, sealedFrom, next, RuntimePlan(body, false), basis);
  }

  lemma PlanApproved(plans: map<nat, RuntimePlan>, next: nat, sealedFrom: map<nat, Basis>, id: nat)
    requires PlansSound(plans, next, sealedFrom) && id in plans
    ensures PlansSound(plans[id := plans[id].(approved := true)], next, sealedFrom)
    ensures PlansStay(plans, plans[id := plans[id].(approved := true)])
  {
  }

  /** One proposal replaced, with its counts; the others keep theirs. */
  lemma ProposalReplaced(proposals: map<nat, RuntimeProposal>, next: nat, changes: map<nat, nat>, simulatedFrom: map<nat, Basis>,
                         id: nat, p: RuntimeProposal, count: nat, from: map<nat, Basis>)
    requires ProposalsSound(proposals, next, changes, simulatedFrom)
    requires forall i | i in simulatedFrom && i != id :: i in from && from[i] == simulatedFrom[i]
    requires Current(id, p, changes[id := count], from)
    ensures ProposalsSound(proposals[id := p], if id < next then next else id + 1, changes[id := count], from)
  {
    forall i | i in proposals && i != id ensures Current(i, proposals[i], changes[id := count], from) {
      assert Current(i, proposals[i], changes, simulatedFrom);
    }
  }

  lemma AllPolled(proposals: map<nat, RuntimeProposal>, next: nat, changes: map<nat, nat>, simulatedFrom: map<nat, Basis>, workspace: nat)
    requires ProposalsSound(proposals, next, changes, simulatedFrom)
    ensures ProposalsSound(map id | id in proposals :: Polled(proposals[id], workspace), next,
                           PolledChanges(changes, proposals, workspace), simulatedFrom)
  {
    forall id | id in proposals
      ensures Current(id, Polled(proposals[id], workspace), PolledChanges(changes, proposals, workspace), simulatedFrom)
    {
      PolledIsCurrent(id, proposals, changes, simulatedFrom, workspace);
    }
  }

  class ApplicationState {
    var scans: map<nat, RootScan>
    var proposals: map<nat, RuntimeProposal>
    var plans: map<nat, RuntimePlan>
    var nextProposal: nat
    var nextPlan: nat
    /** Every scan that was ever stored, with its workspace. */
    ghost var scanned: set<(nat, RootScan)>
    /** How often a decision or a hint changed the content of a proposal. */
    ghost var changes: map<nat, nat>
    /** What the last simulation of a proposal, and each sealed plan, was made from. */
    ghost var simulatedFrom: map<nat, Basis>
    ghost var sealedFrom: map<nat, Basis>

    ghost predicate Valid()
      reads this
    {
      && ProposalsSound(proposals, nextProposal, changes, simulatedFrom) && PlansSound(plans, nextPlan, sealedFrom)
      && FromHistory(simulatedFrom, scanned) && FromHistory(sealedFrom, scanned)
      && forall w | w in scans :: (w, scans[w]) in scanned
    }

    /** Plans and their bases are never altered or dropped, approvals never withdrawn. */
    twostate predicate PlansKept()
      reads this
    {
      PlansStay(old(plans), plans) && BasesStay(old(plans), old(sealedFrom), sealedFrom)
    }

    /** A stale item stays as it is. */
    twostate predicate StaleStays()
      reads this
    {
      StaleKept(old(proposals), proposals)
    }

    constructor ()
      ensures Valid() && proposals == map[] && plans == map[]
    {
      scans, proposals, plans, nextProposal, nextPlan := map[], map[], map[], 0, 0;
      scanned, changes, simulatedFrom, sealedFrom := {}, map[], map[], map[];
    }

    /** `scan_workspace`: a new scan leaves proposals and their simulations alone. */
    method ScanWorkspace(workspace: nat, scan: RootScan)
      requires Valid()
      modifies this`scans, this`scanned
      ensures Valid() && scans == old(scans)[workspace := scan] && scanned == old(scanned) + {(workspace, scan)}
    {
      scans, scanned := scans[workspace := scan], scanned + {(workspace, scan)};
    }

    /** `generate_proposal`. */
    method GenerateProposal(workspace: nat, items: seq<Item>) returns (id: Option<nat>)
      requires Valid() && DistinctItems(items)
      modifies this`proposals, this`nextProposal, this`changes
      ensures Valid() && PlansKept() && StaleStays()
      ensures id.Some? <==> workspace in old(scans)
      ensures id.Some? ==> id.value !in old(proposals)
      ensures id.Some? ==> proposals == old(proposals)[id.value := RuntimeProposal(Revision(id.value, workspace, 1, items), None)]
    {
      PlansUntouched(plans, sealedFrom);
      if workspace !in scans {
        return None;
      }
      id := Some(nextProposal);
      var p := RuntimeProposal(Revision(nextProposal, workspace, 1, items), None);
      ProposalReplaced(proposals, nextProposal, changes, simulatedFrom, nextProposal, p, 0, simulatedFrom);
      OtherKeepsStale(proposals, nextProposal, p);
      proposals := proposals[nextProposal := p];
      changes := changes[nextProposal := 0];
      nextProposal := nextProposal + 1;
    }

    /** `simulate_proposal`. */
    method SimulateProposal(id: nat, existing: set<(nat, string)>) returns (ok: bool)
      requires Valid()
      modifies this`proposals, this`simulatedFrom
      ensures Valid() && PlansKept() && StaleStays()
      ensures proposals.Keys == old(proposals).Keys
      ensures forall i | i in proposals :: proposals[i].revision == old(proposals)[i].revision
      ensures ok ==> id in proposals && proposals[id].simulation.Some? && old(proposals[id].revision.workspace in scans)
      ensures ok ==> Simulated(proposals[id].revision, scans[proposals[id].revision.workspace], existing, proposals[id].simulation.value)
      ensures ok ==> simulatedFrom == old(simulatedFrom)[id := Basis(proposals[id].revision.workspace,
                       scans[proposals[id].revision.workspace], existing, proposals[id].simulation.value, changes[id])]
      ensures !ok ==> proposals == old(proposals) && simulatedFrom == old(simulatedFrom)
      ensures !ok ==> id !in proposals || proposals[id].revision.workspace !in scans
                      || Unsourced(proposals[id].revision.items, scans[proposals[id].revision.workspace])
    {
      if id !in proposals || proposals[id].revision.workspace !in scans {
        return false;
      }
      var outcome := Simulate(proposals[id].revision, scans[proposals[id].revision.workspace], existing);
      ok := outcome.Some?;
      if ok {
        var workspace := proposals[id].revision.workspace;
        ghost var from := simulatedFrom[id := Basis(workspace, scans[workspace], existing, outcome.value, changes[id])];
        assert changes[id := changes[id]] == changes;
        ProposalReplaced(proposals, nextProposal, changes, simulatedFrom, id, proposals[id].(simulation := outcome), changes[id], from);
        proposals := proposals[id := proposals[id].(simulation := outcome)];
        simulatedFrom := from;
      }
    }

    /** `review_proposal_item`. */
    method ReviewItem(item: nat, accept: bool) returns (ok: bool)
      requires Valid()
      modifies this`proposals, this`changes
      ensures Valid() && PlansKept() && StaleStays()
      ensures !ok ==> proposals == old(proposals) && Undecidable(proposals, item, accept)
      ensures !ok ==> changes == old(changes)
      ensures ok ==> exists id, i :: id in old(changes) && Reviewed(old(proposals), proposals, id, i, item, accept)
                                     && changes == old(changes)[id := old(changes)[id] + 1]
    {
      PlansUntouched(plans, sealedFrom);
      if id, i :| id in proposals && 0 <= i < |proposals[id].revision.items| && proposals[id].revision.items[i].id == item {
        var revision := proposals[id].revision;
        var decided := Decided(revision.items[i], accept);
        if decided.None? {
          assert IsItem(proposals, id, i, item);
          return false;
        }
        var number := if revision.number < MAXIMUM_REVISION then revision.number + 1 else revision.number;
        var after := revision.(items := revision.items[i := decided.value], number := number);
        ghost var before := proposals;
        DecidedKeepsIds(revision.items, i, decided.value);
        ProposalReplaced(proposals, nextProposal, changes, simulatedFrom, id, RuntimeProposal(after, None), changes[id] + 1, simulatedFrom);
        proposals := proposals[id := RuntimeProposal(after, None)];
        changes := changes[id := changes[id] + 1];
        assert Reviewed(before, proposals, id, i, item, accept);
        ReviewedKeepsStale(before, proposals, id, i, item, accept);
        return true;
      }
      ok := false;
      assert forall id, i :: !IsItem(proposals, id, i, item);
    }

    /** `poll_monitoring`: change hints make what would move stale, and drop simulations. */
    method PollMonitoring(workspace: nat, hints: nat)
      requires Valid()
      modifies this`proposals, this`changes
      ensures Valid() && PlansKept() && StaleStays()
      ensures hints == 0 ==> proposals == old(proposals) && changes == old(changes)
      ensures hints > 0 ==> changes == PolledChanges(old(changes), old(proposals), workspace)
      ensures hints > 0 ==> proposals.Keys == old(proposals).Keys
      ensures hints > 0 ==> forall id | id in proposals :: proposals[id] == Polled(old(proposals)[id], workspace)
    {
      if hints > 0 {
        AllPolled(proposals, nextProposal, changes, simulatedFrom, workspace);
        changes := PolledChanges(changes, proposals, workspace);
        proposals := map id | id in proposals :: Polled(proposals[id], workspace);
      }
    }

    /** `seal_plan`: a proposal is sealed exactly when its review is complete, its stored
        simulation is free of blockers, and something is to be moved. The simulation is never
        found stale: no decision or hint came after it. The plan has the steps of that
        simulation, and its basis goes on record with it. */
    method SealPlan(id: nat) returns (r: SealResult)
      requires Valid()
      modifies this`plans, this`nextPlan, this`sealedFrom
      ensures Valid() && PlansKept()
      ensures r.Sealed? <==> id in proposals && Sealable(proposals[id])
      ensures r.Sealed? ==> r.body.id !in old(plans) && r.body.of == proposals[id].revision
      ensures r.Sealed? ==> r.body.steps == StepsOf(proposals[id].revision.items, proposals[id].simulation.value)
      ensures r.Sealed? ==> id in simulatedFrom && simulatedFrom[id].outcome == proposals[id].simulation.value
                            && simulatedFrom[id].at == changes[id]
      ensures sealedFrom == if r.Sealed? then old(sealedFrom)[r.body.id := simulatedFrom[id]] else old(sealedFrom)
      ensures plans == if r.Sealed? then old(plans)[r.body.id := RuntimePlan(r.body, false)] else old(plans)
      ensures r.Refused? ==> r.error != StaleSimulation
    {
      if id !in proposals {
        return Refused(Unknown);
      }
      r := TrySeal(nextPlan, proposals[id]);
      SealedExactly(nextPlan, id, proposals[id], changes, simulatedFrom);
      if r.Sealed? {
        StorePlan(r.body, simulatedFrom[id]);
      }
    }

    /** A plan is stored, and its basis goes on record. */
    method StorePlan(body: PlanBody, ghost basis: Basis)
      requires Valid() && PlanSound(body, basis) && body.id == nextPlan && (basis.workspace, basis.scan) in scanned
      modifies this`plans, this`nextPlan, this`sealedFrom
      ensures Valid() && PlansKept() && body.id !in old(plans)
      ensures plans == old(plans)[body.id := RuntimePlan(body, false)] && sealedFrom == old(sealedFrom)[body.id := basis]
    {
      PlanStored(plans, nextPlan, sealedFrom, scanned, body, basis);
      plans, sealedFrom := plans[body.id := RuntimePlan(body, false)], sealedFrom[body.id := basis];
      nextPlan := nextPlan + 1;
    }

    /** `approve_plan`: only the digest of the sealed content approves it. */
    method ApprovePlan(plan: nat, digest: PlanBody) returns (ok: bool)
      requires Valid()
      modifies this`plans
      ensures Valid() && PlansKept()
      ensures ok <==> plan in old(plans) && old(plans)[plan].body == digest
      ensures plans == if ok then old(plans)[plan := old(plans)[plan].(approved := true)] else old(plans)
    {
      PlansUntouched(plans, sealedFrom);
      ok := plan in plans && plans[plan].body == digest;
      if ok {
        PlanApproved(plans, nextPlan, sealedFrom, plan);
        plans := plans[plan := plans[plan].(approved := true)];
      }
    }
  }

  function Polled(p: RuntimeProposal, workspace: nat): RuntimeProposal {
    if p.revision.workspace == workspace
    then RuntimeProposal(p.revision.(items := UnsettledAll(p.revision.items)), None)
    else p
  }

  ghost predicate IsItem(proposals: map<nat, RuntimeProposal>, id: nat, i: int, item: nat) {
    id in proposals && 0 <= i < |proposals[id].revision.items| && proposals[id].revision.items[i].id == item
  }

  /** There is no such item, or it may not be decided this way. */
  ghost predicate Undecidable(proposals: map<nat, RuntimeProposal>, item: nat, accept: bool) {
    || (forall id, i :: !IsItem(proposals, id, i, item))
    || exists id, i :: IsItem(proposals, id, i, item) && Decided(proposals[id].revision.items[i], accept).None?
  }

  /** Some item that is not rejected has no scanned file. */
  ghost predicate Unsourced(items: seq<Item>, scan: RootScan) {
    exists item :: item in items && item.review != Rejected && SourceOf(items, scan, item.id).None?
  }

  /** One item of one proposal is decided, its revision counts on, its simulation is gone. */
  ghost predicate Reviewed(before: map<nat, RuntimeProposal>, after: map<nat, RuntimeProposal>, id: nat, i: nat, item: nat, accept: bool) {
    && id in before && id in after && i < |before[id].revision.items| && before[id].revision.items[i].id == item
    && Decided(before[id].revision.items[i], accept).Some?
    && after == before[id := after[id]] && after[id].simulation.None?
    && after[id].revision.items == before[id].revision.items[i := Decided(before[id].revision.items[i], accept).value]
    && after[id].revision.number == (if before[id].revision.number < MAXIMUM_REVISION then before[id].revision.number + 1
                                     else before[id].revision.number)
  }

  /** Once a poll has found a change, a proposal that would still move something can never
      be sealed again: the stale item cannot be decided. */
  lemma StaleIsFinal(items: seq<Item>, i: nat)
    requires i < |items| && items[i].review == Stale && Mutates(items[i].action)
    ensures !CanBeSealed(items) && Decided(items[i], true).None? && Decided(items[i], false).None?
    ensures UnsettledAll(items)[i] == items[i]
  {
  }

  /** A poll makes such an item of every pending one. */
  lemma PolledIsStale(p: RuntimeProposal, k: nat)
    requires k < |Pending(p.revision.items)|
    ensures exists i :: 0 <= i < |p.revision.items|
                        && Polled(p, p.revision.workspace).revision.items[i].review == Stale
                        && Mutates(Polled(p, p.revision.workspace).revision.items[i].action)
    ensures !CanBeSealed(Polled(p, p.revision.workspace).revision.items)
  {
    PendingAreItems(p.revision.items, k);
    var i :| 0 <= i < |p.revision.items| && p.revision.items[i] == Pending(p.revision.items)[k];
    StaleIsFinal(Polled(p, p.revision.workspace).revision.items, i);
  }

  /** The steps of a plan: its folders, then a move for each pending item, all accepted. */
  ghost predicate PlanDoes(body: PlanBody, scan: RootScan, outcome: Outcome) {
    var pending, n := Pending(body.of.items), |outcome.directories|;
    && |body.steps| == n + |pending|
    && (forall x | 0 <= x < n :: body.steps[x] == CreateFolder(outcome.directories[x].0, outcome.directories[x].1))
    && (forall k | 0 <= k < |pending| :: PlanMoves(body, scan, n, k))
  }

  ghost predicate PlanMoves(body: PlanBody, scan: RootScan, n: nat, k: nat)
    requires k < |Pending(body.of.items)| && n + k < |body.steps|
  {
    var item := Pending(body.of.items)[k];
    && item.review == Accepted && SourceOf(body.of.items, scan, item.id).Some?
    && body.steps[n + k] == Rename(item.id, scan.root, SourceOf(body.of.items, scan, item.id).value.path, item.action.path)
  }

  /** What a sealed plan does, over the scan and the folders of the simulation it was sealed
      from: it places every accepted item, from where that scan has its file, in destinations
      apart from each other, and creates exactly the missing folders, parents first. */
  lemma SealedPlanIsSafe(body: PlanBody, basis: Basis)
    requires PlanSound(body, basis)
    ensures Unblocked(body.of, basis.scan, basis.existing, basis.outcome) && PlanDoes(body, basis.scan, basis.outcome)
  {
    var pending := Pending(body.of.items);
    SealedMovesThePending(body.of, basis.scan, basis.outcome);
    forall k | 0 <= k < |pending| ensures PlanMoves(body, basis.scan, |basis.outcome.directories|, k) {
      PendingAreItems(body.of.items, k);
      assert body.steps[|basis.outcome.directories| + k] == RenameSteps(body.of.items, basis.outcome.moves)[k];
    }
  }
}
