/** The extraction workers and their receiver as interleaved steps. */
module ExtractionPool {
  import opened FileTree

  datatype Status = Success | Partial | Unsupported | Skipped | Failure

  datatype Error = WorkerError(code: nat) | StoreError(code: nat)

  /** What a worker sends: the extraction, or the error that ended it. */
  datatype Outcome = Extracted(status: Status) | Broken(error: Error)

  datatype Message = Message(index: nat, outcome: Outcome)

  datatype Worker = Ready | Cleared | Working(index: nat) | Sending(message: Message) | Exited

  /** What the receiver did with a message. */
  datatype Receipt =
    | Stored(index: nat, status: Status)
    | Refused(index: nat, error: Error)
    | Errored(index: nat, error: Error)
    | Ignored(index: nat)

  /** One page: `count` candidates, a channel that holds as many messages as there are
      workers. `received` is the history of the receiver. */
  datatype State = State(
    count: nat, next: nat, stop: bool, cancelled: bool, workers: seq<Worker>, channel: seq<Message>,
    fatal: Option<Error>, received: seq<Receipt>)

  datatype Action =
    | Cancel
    | Check(worker: nat)
    | Fetch(worker: nat)
    | Work(worker: nat, outcome: Outcome)
    | Send(worker: nat)
    | Receive(storeError: Option<Error>)

  function WithWorker(s: State, i: nat, w: Worker): State
    requires i < |s.workers|
  {
    s.(workers := s.workers[i := w])
  }

  predicate Has(s: State, i: nat, w: Worker) {
    i < |s.workers| && s.workers[i] == w
  }

  /** `for (index, result) in receiver`, one message. */
  function Received(s: State, message: Message, storeError: Option<Error>): State {
    match message.outcome
    case Broken(error) =>
      s.(stop := true, fatal := if s.fatal.None? then Some(error) else s.fatal,
         received := s.received + [Errored(message.index, error)])
    case Extracted(status) =>
      if s.fatal.Some? then s.(received := s.received + [Ignored(message.index)])
      else if storeError.Some? then
        s.(stop := true, fatal := storeError, received := s.received + [Refused(message.index, storeError.value)])
      else s.(received := s.received + [Stored(message.index, status)])
  }

  /** One atomic step, if it is enabled. */
  function Act(s: State, action: Action): Option<State> {
    match action
    case Cancel => if s.cancelled then None else Some(s.(cancelled := true))
    case Check(i) =>
      if !Has(s, i, Ready) then None
      else Some(WithWorker(s, i, if s.stop || s.cancelled then Exited else Cleared))
    case Fetch(i) =>
      if !Has(s, i, Cleared) then None
      else Some(WithWorker(s, i, if s.next < s.count then Working(s.next) else Exited).(next := s.next + 1))
    case Work(i, outcome) =>
      if i >= |s.workers| || !s.workers[i].Working? then None
      else
        Some(WithWorker(s, i, Sending(Message(s.workers[i].index, outcome))).(stop := s.stop || outcome.Broken?))
    case Send(i) =>
      if i >= |s.workers| || !s.workers[i].Sending? || |s.channel| >= |s.workers| then None
      else Some(WithWorker(s, i, Ready).(channel := s.channel + [s.workers[i].message]))
    case Receive(storeError) =>
      if s.channel == [] then None
      else Some(Received(s.(channel := s.channel[1..]), s.channel[0], storeError))
  }

  /** The receiver's loop ends when every sender is gone and nothing is left. */
  predicate Finished(s: State) {
    s.channel == [] && forall i | 0 <= i < |s.workers| :: s.workers[i].Exited?
  }

  function Start(count: nat, workers: nat, cancelled: bool): State {
    State(count, 0, false, cancelled, seq(workers, _ => Ready), [], None, [])
  }

  function Run(actions: seq<Action>, s: State): Option<State> {
    if actions == [] then Some(s)
    else match Act(s, actions[0])
      case None => None
      case Some(t) => Run(actions[1..], t)
  }

  // ---- each index in one place

  function InHand(w: Worker, x: nat): nat {
    match w
    case Working(index) => if index == x then 1 else 0
    case Sending(message) => if message.index == x then 1 else 0
    case _ => 0
  }

  function InHands(workers: seq<Worker>, x: nat): nat {
    if workers == [] then 0 else InHand(workers[0], x) + InHands(workers[1..], x)
  }

  function InChannel(channel: seq<Message>, x: nat): nat {
    if channel == [] then 0 else (if channel[0].index == x then 1 else 0) + InChannel(channel[1..], x)
  }

  function InHistory(received: seq<Receipt>, x: nat): nat {
    if received == [] then 0
    else InHistory(received[..|received| - 1], x) + (if received[|received| - 1].index == x then 1 else 0)
  }

  /** How often candidate `x` is held by a worker, under way in the channel, or received. */
  function Places(s: State, x: nat): nat {
    InHands(s.workers, x) + InChannel(s.channel, x) + InHistory(s.received, x)
  }

  lemma {:induction false} HandChanges(workers: seq<Worker>, i: nat, w: Worker, x: nat)
    requires i < |workers|
    ensures InHands(workers[i := w], x) + InHand(workers[i], x) == InHands(workers, x) + InHand(w, x)
  {
    if i == 0 {
      assert workers[0 := w][1..] == workers[1..];
    } else {
      assert workers[i := w][1..] == workers[1..][i - 1 := w];
      HandChanges(workers[1..], i - 1, w, x);
    }
  }

  lemma {:induction false} ChannelGrows(channel: seq<Message>, message: Message, x: nat)
    ensures InChannel(channel + [message], x) == InChannel(channel, x) + (if message.index == x then 1 else 0)
  {
    if channel == [] {
      assert [message][1..] == [];
    } else {
      assert (channel + [message])[1..] == channel[1..] + [message];
      ChannelGrows(channel[1..], message, x);
    }
  }

  lemma HistoryGrows(received: seq<Receipt>, receipt: Receipt, x: nat)
    ensures InHistory(received + [receipt], x) == InHistory(received, x) + (if receipt.index == x then 1 else 0)
  {
    assert (received + [receipt])[..|received|] == received;
  }

  lemma WorkerMoves(s: State, t: State, i: nat, w: Worker, x: nat)
    requires i < |s.workers| && t.workers == s.workers[i := w] && t.channel == s.channel && t.received == s.received
    ensures Places(t, x) + InHand(s.workers[i], x) == Places(s, x) + InHand(w, x)
  {
    HandChanges(s.workers, i, w, x);
  }

  lemma SendMoves(s: State, i: nat, x: nat)
    requires Act(s, Send(i)).Some?
    ensures Places(Act(s, Send(i)).value, x) == Places(s, x)
  {
    HandChanges(s.workers, i, Ready, x);
    ChannelGrows(s.channel, s.workers[i].message, x);
  }

  /** The receiver appends one receipt, for the message that it took. */
  lemma OneReceipt(s: State, message: Message, storeError: Option<Error>) returns (receipt: Receipt)
    ensures Received(s, message, storeError).received == s.received + [receipt] && receipt.index == message.index
    ensures Received(s, message, storeError).fatal
         == if s.fatal.Some? then s.fatal else if receipt.Refused? || receipt.Errored? then Some(receipt.error) else None
    ensures if s.fatal.Some? then !receipt.Stored? else !receipt.Ignored?
  {
    receipt := match message.outcome
      case Broken(error) => Errored(message.index, error)
      case Extracted(status) =>
        if s.fatal.Some? then Ignored(message.index)
        else if storeError.Some? then Refused(message.index, storeError.value)
        else Stored(message.index, status);
  }

  lemma ReceiveMoves(s: State, storeError: Option<Error>, x: nat)
    requires Act(s, Receive(storeError)).Some?
    ensures Places(Act(s, Receive(storeError)).value, x) == Places(s, x)
  {
    var receipt := OneReceipt(s.(channel := s.channel[1..]), s.channel[0], storeError);
    HistoryGrows(s.received, receipt, x);
  }

  /** A step moves indexes around; only a fetch brings in a new one. */
  lemma StepMovesIndexes(s: State, action: Action, x: nat)
    requires Act(s, action).Some?
    ensures Places(Act(s, action).value, x)
         == Places(s, x) + (if action.Fetch? && s.next < s.count && x == s.next then 1 else 0)
  {
    var t := Act(s, action).value;
    match action
    case Cancel =>
    case Check(i) => WorkerMoves(s, t, i, t.workers[i], x);
    case Fetch(i) => WorkerMoves(s, t, i, t.workers[i], x);
    case Work(i, _) => WorkerMoves(s, t, i, t.workers[i], x);
    case Send(i) => SendMoves(s, i, x);
    case Receive(storeError) => ReceiveMoves(s, storeError, x);
  }

  // ---- the receiver's history

  ghost predicate IsFailure(receipt: Receipt) {
    receipt.Refused? || receipt.Errored?
  }

  function FirstFailure(received: seq<Receipt>): Option<Error> {
    if received == [] then None
    else
      var earlier := FirstFailure(received[..|received| - 1]);
      var last := received[|received| - 1];
      if earlier.Some? then earlier
      else if last.Refused? || last.Errored? then Some(last.error)
      else None
  }

  /** Nothing is stored once something failed. */
  ghost predicate NothingStoredAfterFailure(received: seq<Receipt>) {
    forall i, j | 0 <= i < j < |received| && IsFailure(received[i]) :: !received[j].Stored?
  }

  lemma {:induction false} NoFailureBefore(received: seq<Receipt>, i: nat)
    requires FirstFailure(received).None? && i < |received|
    ensures !IsFailure(received[i])
  {
    var front := received[..|received| - 1];
    if i < |front| {
      NoFailureBefore(front, i);
    }
  }

  lemma FailureGrows(received: seq<Receipt>, receipt: Receipt)
    ensures FirstFailure(received + [receipt])
         == if FirstFailure(received).Some? then FirstFailure(received)
            else if receipt.Refused? || receipt.Errored? then Some(receipt.error) else None
  {
    assert (received + [receipt])[..|received|] == received;
  }

  // ---- what holds in every reachable state

  ghost predicate EachOnce(s: State) {
    forall x: nat :: Places(s, x) == if x < s.next && x < s.count then 1 else 0
  }

  ghost predicate HistoryHonest(s: State) {
    s.fatal == FirstFailure(s.received) && NothingStoredAfterFailure(s.received)
  }

  /** An error on its way stops the page; without one, a worker leaves early only when
      nothing is left to fetch or the user cancelled. */
  ghost predicate StopExplained(s: State) {
    && (s.fatal.Some? ==> s.stop)
    && (forall i | 0 <= i < |s.workers| && s.workers[i].Sending? && s.workers[i].message.outcome.Broken? :: s.stop)
    && (forall k | 0 <= k < |s.channel| && s.channel[k].outcome.Broken? :: s.stop)
    && (s.stop ==> s.fatal.Some? || ErrorOnItsWay(s))
    && (!s.stop && !s.cancelled && (exists i :: 0 <= i < |s.workers| && s.workers[i].Exited?) ==> s.next >= s.count)
  }

  ghost predicate ErrorOnItsWay(s: State) {
    || (exists i :: 0 <= i < |s.workers| && s.workers[i].Sending? && s.workers[i].message.outcome.Broken?)
    || (exists k :: 0 <= k < |s.channel| && s.channel[k].outcome.Broken?)
  }

  ghost predicate Invariant(s: State) {
    EachOnce(s) && HistoryHonest(s) && StopExplained(s) && |s.workers| > 0
  }

  lemma {:induction false} NoHands(workers: seq<Worker>, x: nat)
    requires forall i | 0 <= i < |workers| :: workers[i].Ready? || workers[i].Exited?
    ensures InHands(workers, x) == 0
  {
    if workers != [] {
      NoHands(workers[1..], x);
    }
  }

  lemma StartIsSound(count: nat, workers: nat, cancelled: bool)
    requires workers > 0
    ensures Invariant(Start(count, workers, cancelled))
  {
    var s := Start(count, workers, cancelled);
    forall x: nat ensures Places(s, x) == 0 {
      NoHands(s.workers, x);
    }
  }

  lemma HistoryNext(received: seq<Receipt>, receipt: Receipt)
    requires NothingStoredAfterFailure(received) && (FirstFailure(received).Some? ==> !receipt.Stored?)
    ensures NothingStoredAfterFailure(received + [receipt])
  {
    var longer := received + [receipt];
    forall i, j | 0 <= i < j < |longer| && IsFailure(longer[i]) ensures !longer[j].Stored? {
      if j == |received| && FirstFailure(received).None? {
        NoFailureBefore(received, i);
      }
    }
  }

  lemma StepKeepsHistory(s: State, action: Action)
    requires HistoryHonest(s) && Act(s, action).Some?
    ensures HistoryHonest(Act(s, action).value)
  {
    if action.Receive? {
      var receipt := OneReceipt(s.(channel := s.channel[1..]), s.channel[0], action.storeError);
      FailureGrows(s.received, receipt);
      HistoryNext(s.received, receipt);
    }
  }

  lemma StepKeepsStop(s: State, action: Action)
    requires StopExplained(s) && Act(s, action).Some?
    ensures StopExplained(Act(s, action).value)
  {
    var t := Act(s, action).value;
    match action
    case Cancel =>
    case Check(i) =>
      WayStays(s, t, i);
    case Fetch(i) =>
      WayStays(s, t, i);
    case Work(i, outcome) =>
      if outcome.Broken? {
        assert t.workers[i].Sending? && t.workers[i].message.outcome.Broken?;
      } else {
        WayStays(s, t, i);
      }
    case Send(i) =>
      SentErrorIsOnItsWay(s, t, i);
    case Receive(_) =>
      ReceivedErrorIsFatal(s, t);
  }

  lemma WayStays(s: State, t: State, i: nat)
    requires i < |s.workers| == |t.workers| && t.channel == s.channel && !s.workers[i].Sending?
    requires forall j | 0 <= j < |s.workers| && j != i :: t.workers[j] == s.workers[j]
    ensures ErrorOnItsWay(s) ==> ErrorOnItsWay(t)
  {
    if k :| 0 <= k < |s.workers| && s.workers[k].Sending? && s.workers[k].message.outcome.Broken? {
      assert t.workers[k] == s.workers[k];
    }
  }

  lemma SentErrorIsOnItsWay(s: State, t: State, i: nat)
    requires Act(s, Send(i)) == Some(t)
    ensures ErrorOnItsWay(s) ==> ErrorOnItsWay(t)
  {
    if k :| 0 <= k < |s.workers| && s.workers[k].Sending? && s.workers[k].message.outcome.Broken? {
      if k == i {
        assert t.channel[|s.channel|].outcome.Broken?;
      } else {
        assert t.workers[k] == s.workers[k];
      }
    }
    if k :| 0 <= k < |s.channel| && s.channel[k].outcome.Broken? {
      assert t.channel[k] == s.channel[k];
    }
  }

  lemma ReceivedErrorIsFatal(s: State, t: State)
    requires s.channel != [] && t.workers == s.workers && t.channel == s.channel[1..]
    requires s.channel[0].outcome.Broken? ==> t.fatal.Some?
    ensures ErrorOnItsWay(s) ==> t.fatal.Some? || ErrorOnItsWay(t)
  {
    if k :| 0 <= k < |s.workers| && s.workers[k].Sending? && s.workers[k].message.outcome.Broken? {
      assert t.workers[k] == s.workers[k];
    }
    if k :| 0 <= k < |s.channel| && s.channel[k].outcome.Broken? {
      if k > 0 {
        assert t.channel[k - 1] == s.channel[k];
      }
    }
  }

  lemma StepKeepsPlaces(s: State, action: Action)
    requires EachOnce(s) && Act(s, action).Some?
    ensures EachOnce(Act(s, action).value)
  {
    var t := Act(s, action).value;
    forall x: nat ensures Places(t, x) == if x < t.next && x < t.count then 1 else 0 {
      StepMovesIndexes(s, action, x);
      OnlyFetchCounts(s, action);
    }
  }

  lemma OnlyFetchCounts(s: State, action: Action)
    requires Act(s, action).Some?
    ensures var t := Act(s, action).value;
            t.count == s.count && t.next == (if action.Fetch? then s.next + 1 else s.next) && |t.workers| == |s.workers|
  {
  }

  lemma StepKeepsInvariant(s: State, action: Action)
    requires Invariant(s) && Act(s, action).Some?
    ensures Invariant(Act(s, action).value)
  {
    StepKeepsPlaces(s, action);
    StepKeepsHistory(s, action);
    StepKeepsStop(s, action);
    OnlyFetchCounts(s, action);
  }

  /** Every interleaving of any length keeps the invariant. */
  lemma {:induction false} RunKeepsInvariant(actions: seq<Action>, s: State)
    requires Invariant(s) && Run(actions, s).Some?
    ensures Invariant(Run(actions, s).value)
  {
    if actions != [] {
      StepKeepsInvariant(s, actions[0]);
      RunKeepsInvariant(actions[1..], Act(s, actions[0]).value);
    }
  }

  // ---- progress

  /** What a worker can still cost. */
  function WorkerCost(w: Worker): nat {
    match w
    case Ready => 2
    case Cleared => 1
    case Working(_) => 5
    case Sending(_) => 4
    case Exited => 0
  }

  function WorkersCost(workers: seq<Worker>): nat {
    if workers == [] then 0 else WorkerCost(workers[0]) + WorkersCost(workers[1..])
  }

  function Cost(s: State): nat {
    5 * (if s.next < s.count then s.count - s.next else 0) + WorkersCost(s.workers) + |s.channel|
    + (if s.cancelled then 0 else 1)
  }

  lemma {:induction false} CostChanges(workers: seq<Worker>, i: nat, w: Worker)
    requires i < |workers|
    ensures WorkersCost(workers[i := w]) + WorkerCost(workers[i]) == WorkersCost(workers) + WorkerCost(w)
  {
    if i == 0 {
      assert workers[0 := w][1..] == workers[1..];
    } else {
      assert workers[i := w][1..] == workers[1..][i - 1 := w];
      CostChanges(workers[1..], i - 1, w);
    }
  }

  /** Every step uses something up, so no interleaving runs for ever. */
  lemma StepCosts(s: State, action: Action)
    requires Act(s, action).Some?
    ensures Cost(Act(s, action).value) < Cost(s)
  {
    var t := Act(s, action).value;
    match action
    case Cancel =>
    case Check(i) => CostChanges(s.workers, i, t.workers[i]);
    case Fetch(i) => CostChanges(s.workers, i, t.workers[i]);
    case Work(i, _) => CostChanges(s.workers, i, t.workers[i]);
    case Send(i) => CostChanges(s.workers, i, t.workers[i]);
    case Receive(_) =>
  }

  function FirstStep(workers: seq<Worker>, i: nat): Action
    decreases |workers| - i
  {
    if i >= |workers| then Cancel
    else match workers[i]
      case Ready => Check(i)
      case Cleared => Fetch(i)
      case Working(_) => Work(i, Extracted(Success))
      case Sending(_) => Send(i)
      case Exited => FirstStep(workers, i + 1)
  }

  function AnyStep(s: State): Action {
    if s.channel != [] then Receive(None) else FirstStep(s.workers, 0)
  }

  lemma {:induction false} FirstStepIsEnabled(s: State, i: nat)
    requires i <= |s.workers| && s.channel == [] && exists j :: i <= j < |s.workers| && !s.workers[j].Exited?
    ensures Act(s, FirstStep(s.workers, i)).Some? && FirstStep(s.workers, i) != Cancel
    decreases |s.workers| - i
  {
    if s.workers[i].Exited? {
      FirstStepIsEnabled(s, i + 1);
    }
  }

  /** While the page is not finished some step other than a cancellation is enabled. */
  lemma NoDeadlock(s: State)
    requires !Finished(s)
    ensures Act(s, AnyStep(s)).Some? && AnyStep(s) != Cancel
  {
    if s.channel == [] {
      FirstStepIsEnabled(s, 0);
    }
  }

  // ---- a finished page

  /** How often `x` occurs. */
  function Times(list: seq<nat>, x: nat): nat {
    multiset(list)[x]
  }

  function StoredIndexes(received: seq<Receipt>): seq<nat> {
    if received == [] then []
    else
      var last := received[|received| - 1];
      StoredIndexes(received[..|received| - 1]) + (if last.Stored? then [last.index] else [])
  }

  lemma {:induction false} StoredAmongReceived(received: seq<Receipt>, x: nat)
    ensures Times(StoredIndexes(received), x) <= InHistory(received, x)
  {
    if received != [] {
      StoredAmongReceived(received[..|received| - 1], x);
    }
  }

  lemma {:induction false} AllStored(received: seq<Receipt>, x: nat)
    requires FirstFailure(received).None? && forall i | 0 <= i < |received| :: !received[i].Ignored?
    ensures Times(StoredIndexes(received), x) == InHistory(received, x)
  {
    if received != [] {
      var front := received[..|received| - 1];
      assert received == front + [received[|received| - 1]];
      FailureGrows(front, received[|received| - 1]);
      AllStored(front, x);
    }
  }

  /** In every reachable state each candidate is stored at most once. */
  lemma StoredAtMostOnce(s: State, x: nat)
    requires Invariant(s)
    ensures Times(StoredIndexes(s.received), x) <= if x < s.count then 1 else 0
  {
    StoredAmongReceived(s.received, x);
    assert InHistory(s.received, x) <= Places(s, x);
  }

  /** Results are ignored only after a failure. */
  ghost predicate IgnoredOnlyAfterFailure(received: seq<Receipt>) {
    FirstFailure(received).None? ==> forall i | 0 <= i < |received| :: !received[i].Ignored?
  }

  lemma StepKeepsIgnored(s: State, action: Action)
    requires HistoryHonest(s) && IgnoredOnlyAfterFailure(s.received) && Act(s, action).Some?
    ensures IgnoredOnlyAfterFailure(Act(s, action).value.received)
  {
    if action.Receive? {
      var receipt := OneReceipt(s.(channel := s.channel[1..]), s.channel[0], action.storeError);
      IgnoredGrows(s.received, receipt, s.fatal);
    } else {
      OnlyReceiptsAreReceived(s, action);
    }
  }

  lemma OnlyReceiptsAreReceived(s: State, action: Action)
    requires !action.Receive? && Act(s, action).Some?
    ensures Act(s, action).value.received == s.received
  {
  }

  lemma IgnoredGrows(received: seq<Receipt>, receipt: Receipt, fatal: Option<Error>)
    requires fatal == FirstFailure(received) && IgnoredOnlyAfterFailure(received)
    requires fatal.None? ==> !receipt.Ignored?
    ensures IgnoredOnlyAfterFailure(received + [receipt])
  {
    FailureGrows(received, receipt);
  }

  /** A page that finished without an error and without cancellation stored every one of
      its candidates exactly once. */
  lemma CompletePageStoresAll(s: State, x: nat)
    requires Invariant(s) && IgnoredOnlyAfterFailure(s.received) && Finished(s)
    requires s.fatal.None? && !s.cancelled
    ensures Times(StoredIndexes(s.received), x) == if x < s.count then 1 else 0
  {
    assert s.workers[0].Exited?;
    NoHands(s.workers, x);
    AllStored(s.received, x);
    assert Places(s, x) == InHistory(s.received, x);
  }

  // ---- running a page, and page after page

  const PAGE_SIZE := 64

  ghost predicate PageSound(s: State) {
    Invariant(s) && IgnoredOnlyAfterFailure(s.received)
  }

  /** `process_candidate_page` under an arbitrary scheduler, which also decides the outcomes
      and when the user cancels. It always ends. */
  method ProcessPage(count: nat, maxWorkers: nat, cancelled: bool, scheduler: nat -> Action) returns (page: State)
    ensures PageSound(page) && Finished(page) && page.count == count && (cancelled ==> page.cancelled)
  {
    var workers := if maxWorkers < count then maxWorkers else count;
    workers := if workers < 1 then 1 else workers;
    StartIsSound(count, workers, cancelled);
    page := Start(count, workers, cancelled);
    var tick := 0;
    while !Finished(page)
      invariant PageSound(page) && page.count == count && (cancelled ==> page.cancelled)
      decreases Cost(page)
    {
      var action := if Act(page, scheduler(tick)).Some? then scheduler(tick) else AnyStep(page);
      NoDeadlock(page);
      StepCosts(page, action);
      StepKeepsInvariant(page, action);
      StepKeepsIgnored(page, action);
      OnlyFetchCounts(page, action);
      page, tick := Act(page, action).value, tick + 1;
    }
  }

  /** How many stored results had this outcome. */
  function StoredWith(received: seq<Receipt>, status: Status): nat {
    if received == [] then 0
    else
      var last := received[|received| - 1];
      StoredWith(received[..|received| - 1], status) + (if last.Stored? && last.status == status then 1 else 0)
  }

  const U64_MAX := 0xFFFF_FFFF_FFFF_FFFF

  function SaturatingNext(n: nat): nat {
    if n < U64_MAX then n + 1 else n
  }

  /** The counters that the receiver keeps. */
  class Progress {
    var completed: nat
    var successful: nat
    var partiallyDone: nat
    var unsupported: nat
    var skipped: nat
    var failed: nat

    /** The files completed are those of the five outcomes, until a counter saturates. */
    ghost predicate Balanced()
      reads this
    {
      completed <= U64_MAX
      && (completed < U64_MAX ==> completed == successful + partiallyDone + unsupported + skipped + failed)
    }

    /** The counter of one outcome. */
    ghost function Tally(status: Status): nat
      reads this
    {
      match status
      case Success => successful
      case Partial => partiallyDone
      case Unsupported => unsupported
      case Skipped => skipped
      case Failure => failed
    }

    constructor ()
      ensures Balanced() && completed == 0 && forall o :: Tally(o) == 0
    {
      completed, successful, partiallyDone, unsupported, skipped, failed := 0, 0, 0, 0, 0, 0;
    }

    lemma CountersAreSmall()
      requires Balanced()
      ensures completed < U64_MAX ==> forall o :: Tally(o) < U64_MAX
    {
    }

    /** `apply_result_to_progress`. */
    method Apply(status: Status)
      requires Balanced()
      modifies this
      ensures Balanced() && completed == SaturatingNext(old(completed))
      ensures old(completed) < U64_MAX ==> completed == old(completed) + 1
      ensures forall o :: Tally(o) == if o == status then SaturatingNext(old(Tally(o))) else old(Tally(o))
    {
      completed := SaturatingNext(completed);
      match status
      case Success => successful := SaturatingNext(successful);
      case Partial => partiallyDone := SaturatingNext(partiallyDone);
      case Unsupported => unsupported := SaturatingNext(unsupported);
      case Skipped => skipped := SaturatingNext(skipped);
      case Failure => failed := SaturatingNext(failed);
    }

    /** The receiver counts what it stored, each outcome on its own counter. */
    method ApplyAll(received: seq<Receipt>)
      requires Balanced()
      modifies this
      ensures Balanced()
      ensures old(completed) + |StoredIndexes(received)| <= U64_MAX ==> completed == old(completed) + |StoredIndexes(received)|
      ensures old(completed) + |StoredIndexes(received)| <= U64_MAX ==>
                forall o :: Tally(o) == old(Tally(o)) + StoredWith(received, o)
    {
      for i := 0 to |received|
        invariant Balanced()
        invariant old(completed) + |StoredIndexes(received[..i])| <= U64_MAX ==>
                    completed == old(completed) + |StoredIndexes(received[..i])|
        invariant old(completed) + |StoredIndexes(received[..i])| <= U64_MAX ==>
                    forall o :: Tally(o) == old(Tally(o)) + StoredWith(received[..i], o)
      {
        assert received[..i + 1][..i] == received[..i];
        if received[i].Stored? {
          CountersAreSmall();
          Apply(received[i].status);
        }
      }
      assert received[..|received|] == received;
    }
  }

  function Shifted(list: seq<nat>, offset: nat): (r: seq<nat>)
    ensures |r| == |list|
  {
    if list == [] then [] else Shifted(list[..|list| - 1], offset) + [list[|list| - 1] + offset]
  }

  lemma TimesNext(list: seq<nat>, last: nat, x: nat)
    ensures Times(list + [last], x) == Times(list, x) + (if x == last then 1 else 0)
  {
  }

  lemma ShiftedNext(list: seq<nat>, last: nat, offset: nat)
    ensures Shifted(list + [last], offset) == Shifted(list, offset) + [last + offset]
  {
    assert (list + [last])[..|list|] == list;
  }

  lemma {:induction false} ShiftedCount(list: seq<nat>, offset: nat, x: nat)
    ensures Times(Shifted(list, offset), x) == if x < offset then 0 else Times(list, x - offset)
  {
    if list != [] {
      var front, last := list[..|list| - 1], list[|list| - 1];
      ShiftedCount(front, offset, x);
      assert list == front + [last];
      ShiftedNext(front, last, offset);
      TimesNext(Shifted(front, offset), last + offset, x);
      if x >= offset {
        TimesNext(front, last, x - offset);
      }
    }
  }

  datatype BatchStatus = BatchCompleted | BatchCancelled | BatchFailed

  /** What is stored so far of the first `offset` candidates. */
  ghost predicate StoredSoFar(stored: seq<nat>, offset: nat, complete: bool) {
    && (forall x: nat :: Times(stored, x) <= if x < offset then 1 else 0)
    && (complete ==> forall x: nat :: Times(stored, x) == if x < offset then 1 else 0)
  }

  lemma TimesConcat(a: seq<nat>, b: seq<nat>, x: nat)
    ensures Times(a + b, x) == Times(a, x) + Times(b, x)
  {
  }

  lemma PageStoredAt(offset: nat, page: State, x: nat)
    requires PageSound(page) && Finished(page)
    ensures var times := Times(Shifted(StoredIndexes(page.received), offset), x);
            && times <= (if offset <= x < offset + page.count then 1 else 0)
            && (page.fatal.None? && !page.cancelled ==> times == if offset <= x < offset + page.count then 1 else 0)
  {
    ShiftedCount(StoredIndexes(page.received), offset, x);
    if x >= offset {
      StoredAtMostOnce(page, x - offset);
      if page.fatal.None? && !page.cancelled {
        CompletePageStoresAll(page, x - offset);
      }
    }
  }

  lemma PageStored(stored: seq<nat>, offset: nat, page: State)
    requires StoredSoFar(stored, offset, true) && PageSound(page) && Finished(page)
    ensures StoredSoFar(stored + Shifted(StoredIndexes(page.received), offset), offset + page.count,
                        page.fatal.None? && !page.cancelled)
  {
    var more := Shifted(StoredIndexes(page.received), offset);
    forall x: nat
      ensures Times(stored + more, x) <= if x < offset + page.count then 1 else 0
      ensures page.fatal.None? && !page.cancelled ==> Times(stored + more, x) == if x < offset + page.count then 1 else 0
    {
      TimesConcat(stored, more, x);
      PageStoredAt(offset, page, x);
    }
  }

  /** `analyze_scan_content` over a fixed list of candidates, with a cancellation that never
      resets: a batch that ends as completed stored every candidate exactly once, any other
      none twice, and a failed one returns the first failure of its last page. */
  method AnalyzeScanContent(total: nat, maxWorkers: nat, scheduler: (nat, nat) -> Action, cancels: nat -> bool, progress: Progress)
    returns (status: BatchStatus, error: Option<Error>, stored: seq<nat>, ghost last: seq<Receipt>)
    requires progress.Balanced()
    modifies progress
    ensures StoredSoFar(stored, total, status == BatchCompleted)
    ensures error == FirstFailure(last) && (status == BatchFailed ==> error.Some?)
    ensures status == BatchCompleted ==> error.None?
    ensures progress.Balanced()
    ensures old(progress.completed) + |stored| <= U64_MAX ==> progress.completed == old(progress.completed) + |stored|
  {
    var offset, pages, cancelled := 0, 0, cancels(0);
    stored, error, last := [], None, [];
    while !cancelled && offset < total && error.None?
      invariant offset <= total && progress.Balanced()
      invariant StoredSoFar(stored, offset, error.None? && !cancelled)
      invariant error == FirstFailure(last)
      invariant old(progress.completed) + |stored| <= U64_MAX ==> progress.completed == old(progress.completed) + |stored|
      decreases total - offset
    {
      var size := if total - offset < PAGE_SIZE then total - offset else PAGE_SIZE;
      var page := ProcessPage(size, maxWorkers, cancelled, (tick: nat) => scheduler(pages, tick));
      PageStored(stored, offset, page);
      progress.ApplyAll(page.received);
      stored := stored + Shifted(StoredIndexes(page.received), offset);
      offset, pages, error, last := offset + size, pages + 1, page.fatal, page.received;
      cancelled := page.cancelled || cancels(pages);
    }
    status := if cancelled || cancels(pages + 1) then BatchCancelled
              else if error.Some? then BatchFailed else BatchCompleted;
  }
}
