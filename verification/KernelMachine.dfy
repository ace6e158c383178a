/**
 * The kernel as the program runs it: one mutable state that each event updates in place,
 * and the loops that validate a log, fold it, and append a batch of drafts.
 */
module KernelMachine {
  import opened Common
  import opened Kernel
  import opened KernelRuns
  import opened KernelLog

  class MutableState {
    var facts: map<Id, Fact>
    var goals: map<Id, Goal>
    var currentGoalId: Option<Id>
    var commitments: map<Id, Commitment>
    var policy: Policy
    var checkpoints: map<Id, CheckpointRecord>
    var workers: map<Id, Worker>
    var deliveries: seq<DeliveryRecord>
    var decisions: map<Id, Decision>
    var workerFacts: seq<AcceptedFact>
    var advisories: seq<Advisory>

    function Value(): State
      reads this
    {
      State(facts, goals, currentGoalId, commitments, policy, checkpoints, workers, deliveries, decisions, workerFacts,
            advisories)
    }

    constructor ()
      ensures Value() == EmptyState
    {
      facts, goals, currentGoalId, commitments := map[], map[], None, map[];
      policy, checkpoints, workers := Policy(0, []), map[], map[];
      deliveries, decisions, workerFacts, advisories := [], map[], [], [];
    }

    method ApplyFactEvent(sequence: nat, p: Payload) returns (failure: Option<KernelError>)
      requires p.FactAsserted? || p.FactCorrected?
      modifies this`facts
      ensures ApplyFact(old(Value()), sequence, p) == if failure.Some? then Err(failure.value) else Ok(Value())
      ensures failure.Some? ==> Value() == old(Value())
    {
      if p.FactAsserted? {
        if p.key in facts { return Some(FactExists(p.key)); }
        facts := facts[p.key := Fact(p.value, 1, p.authority, sequence)];
      } else {
        if p.key !in facts { return Some(FactMissing(p.key)); }
        var prior := facts[p.key];
        if prior.revision != p.expectedRevision || p.revision != prior.revision + 1 {
          return Some(FactRevisionStale(p.key));
        }
        facts := facts[p.key := Fact(p.value, p.revision, p.authority, sequence)];
      }
      failure := None;
    }

    method ApplyGoalEvent(sequence: nat, p: Payload) returns (failure: Option<KernelError>)
      requires p.GoalActivated? || p.GoalCompleted? || p.GoalSuspended? || p.GoalResumed?
      modifies this`goals, this`currentGoalId
      ensures ApplyGoal(old(Value()), sequence, p) == if failure.Some? then Err(failure.value) else Ok(Value())
      ensures failure.Some? ==> Value() == old(Value())
    {
      failure := None;
      match p
      case GoalActivated(goalId, description) =>
        if goalId in goals { return Some(GoalExists(goalId)); }
        if currentGoalId.Some? && currentGoalId.value in goals {
          var prior := goals[currentGoalId.value];
          if prior.status.GoalActive? {
            goals := goals[currentGoalId.value := prior.(status := GoalPaused)];
          }
        }
        goals := goals[goalId := Goal(description, sequence, GoalActive)];
        currentGoalId := Some(goalId);
      case GoalCompleted(goalId) =>
        if goalId !in goals || !goals[goalId].status.GoalActive? || currentGoalId != Some(goalId) {
          return Some(GoalNotActive(goalId));
        }
        goals := goals[goalId := goals[goalId].(status := GoalDone)];
        currentGoalId := None;
      case GoalSuspended(goalId, _) =>
        if goalId !in goals || !goals[goalId].status.GoalActive? || currentGoalId != Some(goalId) {
          return Some(GoalNotActive(goalId));
        }
        goals := goals[goalId := goals[goalId].(status := GoalPaused)];
        currentGoalId := None;
      case GoalResumed(goalId) =>
        if goalId !in goals || !goals[goalId].status.GoalPaused? { return Some(GoalNotSuspended(goalId)); }
        if currentGoalId.Some? { return Some(AnotherGoalActive(goalId)); }
        goals := goals[goalId := goals[goalId].(status := GoalActive)];
        currentGoalId := Some(goalId);
    }

    method ApplyCommitmentEvent(sequence: nat, p: Payload) returns (failure: Option<KernelError>)
      requires p.CommitmentOpened? || p.CommitmentResolved?
      modifies this`commitments
      ensures ApplyCommitment(old(Value()), sequence, p) == if failure.Some? then Err(failure.value) else Ok(Value())
      ensures failure.Some? ==> Value() == old(Value())
    {
      if p.CommitmentOpened? {
        if p.commitmentId in commitments { return Some(CommitmentExists(p.commitmentId)); }
        if p.goalId !in goals { return Some(CommitmentGoalMissing(p.goalId)); }
        commitments := commitments[p.commitmentId := Commitment(p.goalId, p.description, sequence, None)];
      } else {
        if p.commitmentId !in commitments || commitments[p.commitmentId].resolution.Some? {
          return Some(CommitmentNotOpen(p.commitmentId));
        }
        var open := commitments[p.commitmentId];
        commitments := commitments[p.commitmentId := open.(resolution := Some(Resolution(p.resolution, sequence)))];
      }
      failure := None;
    }

    method ApplyCheckpointEvent(sequence: nat, c: Checkpoint) returns (failure: Option<KernelError>)
      modifies this`checkpoints
      ensures ApplyCheckpoint(old(Value()), sequence, c) == if failure.Some? then Err(failure.value) else Ok(Value())
      ensures failure.Some? ==> Value() == old(Value())
    {
      if currentGoalId != Some(c.goalId) { return Some(CheckpointNotCurrentGoal); }
      if c.goalId in checkpoints {
        var prior := checkpoints[c.goalId].checkpoint;
        if prior.status.FlowCompleted? || prior.status.FlowFailed? { return Some(CheckpointTerminal); }
        if c.runtimeDigest != prior.runtimeDigest { return Some(CheckpointDigestChanged); }
        if c.flowRevision <= prior.flowRevision { return Some(CheckpointRevisionStale); }
        if c.capabilityEpoch < prior.capabilityEpoch { return Some(CheckpointEpochRewound); }
      }
      checkpoints := checkpoints[c.goalId := CheckpointRecord(c, sequence)];
      failure := None;
    }

    /** The dependency loop of a spawn. */
    method FindStale(dependencies: seq<Dependency>) returns (stale: Option<Id>)
      ensures stale == FirstStale(Value(), dependencies)
    {
      var i := 0;
      while i < |dependencies|
        invariant 0 <= i <= |dependencies|
        invariant FirstStale(Value(), dependencies) == FirstStale(Value(), dependencies[i..])
      {
        assert dependencies[i..][1..] == dependencies[i + 1..];
        var d := dependencies[i];
        if d.key !in facts || facts[d.key].revision != d.revision {
          return Some(d.key);
        }
        i := i + 1;
      }
      stale := None;
    }

    method ApplySpawnEvent(sequence: nat, p: Payload) returns (failure: Option<KernelError>)
      requires p.WorkerSpawned?
      modifies this`workers
      ensures ApplySpawn(old(Value()), sequence, p) == if failure.Some? then Err(failure.value) else Ok(Value())
      ensures failure.Some? ==> Value() == old(Value())
    {
      hide FirstStale;
      if p.workerId in workers { return Some(WorkerExists(p.workerId)); }
      if currentGoalId != Some(p.goalId) { return Some(WorkerGoalNotCurrent); }
      if p.policyEpoch != policy.epoch { return Some(WorkerEpochNotCurrent); }
      var running := set w | w in workers && workers[w].goalId == p.goalId && workers[w].status.Running?;
      assert running == RunningWorkers(Value(), p.goalId);
      if |running| >= MAX_ACTIVE_WORKERS_PER_GOAL { return Some(TooManyActiveWorkers); }
      var stale := FindStale(p.dependencies);
      if stale.Some? { return Some(DependencyNotCurrent(stale.value)); }
      workers := workers[p.workerId := Worker(p.goalId, p.purpose, p.policyEpoch, p.dependencies, sequence, Running)];
      failure := None;
    }

    method ApplyWorkerEndEvent(workerId: Id, status: WorkerStatus) returns (failure: Option<KernelError>)
      modifies this`workers
      ensures ApplyWorkerEnd(old(Value()), workerId, status) ==
              if failure.Some? then Err(failure.value) else Ok(Value())
      ensures failure.Some? ==> Value() == old(Value())
    {
      if workerId !in workers || !workers[workerId].status.Running? { return Some(WorkerNotRunning(workerId)); }
      workers := workers[workerId := workers[workerId].(status := status)];
      failure := None;
    }

    method Admit(d: Delivery) returns (status: DeliveryStatus)
      ensures status == Admission(Value(), d)
    {
      hide FirstStale, DependenciesMatch;
      if d.workerId !in workers || !workers[d.workerId].status.Running? { return Rejected; }
      var worker := workers[d.workerId];
      if d.goalId != worker.goalId { return Rejected; }
      if worker.goalId in goals && goals[worker.goalId].status.GoalPaused? { return Deferred; }
      if currentGoalId != Some(d.goalId) { return Rejected; }
      if d.policyEpoch != worker.policyEpoch || d.policyEpoch != policy.epoch { return Rejected; }
      if !DependenciesMatch(d.dependencies, worker.dependencies) { return Rejected; }
      var stale := FindStale(worker.dependencies);
      status := if stale.Some? then Rejected else Accepted;
    }

    /** Pushes the facts and advisories of an accepted delivery one by one. */
    method PublishResult(sequence: nat, d: Delivery)
      modifies this`workerFacts, this`advisories
      ensures workerFacts == old(workerFacts) + FactsOf(d, d.facts, sequence)
      ensures advisories == old(advisories) + AdvisoriesOf(d.advisories, sequence)
    {
      var i := 0;
      while i < |d.facts|
        invariant 0 <= i <= |d.facts|
        invariant workerFacts == old(workerFacts) + FactsOf(d, d.facts, sequence)[..i]
        invariant advisories == old(advisories)
      {
        workerFacts := workerFacts +
          [AcceptedFact(d.facts[i], d.workerId, d.deliveryId, d.goalId, d.policyEpoch, d.dependencies, sequence)];
        i := i + 1;
      }
      i := 0;
      while i < |d.advisories|
        invariant 0 <= i <= |d.advisories|
        invariant workerFacts == old(workerFacts) + FactsOf(d, d.facts, sequence)
        invariant advisories == old(advisories) + AdvisoriesOf(d.advisories, sequence)[..i]
      {
        advisories := advisories + [Advisory(d.advisories[i].episodeId, d.advisories[i].text, FromWorker, sequence)];
        i := i + 1;
      }
    }

    method ApplyDeliveryEvent(sequence: nat, eventId: Id, d: Delivery) returns (failure: Option<KernelError>)
      modifies this`workers, this`deliveries, this`decisions, this`workerFacts, this`advisories
      ensures ApplyDelivery(old(Value()), sequence, eventId, d) ==
              if failure.Some? then Err(failure.value) else Ok(Value())
      ensures failure.Some? ==> Value() == old(Value())
    {
      hide Decide;
      failure := None;
      if d.deliveryId in decisions {
        var prior := decisions[d.deliveryId];
        if prior.content != d { return Some(DeliveryContentChanged(d.deliveryId)); }
        if !prior.status.Deferred? {
          deliveries := deliveries + [DeliveryRecord(d.deliveryId, d.workerId, eventId, Duplicate, None, d)];
          return;
        }
      }
      DecideDelivery(sequence, eventId, d);
    }

    /** Decides on a delivery, records the decision and publishes an accepted result. */
    method DecideDelivery(sequence: nat, eventId: Id, d: Delivery)
      modifies this`workers, this`deliveries, this`decisions, this`workerFacts, this`advisories
      ensures Value() == Decide(old(Value()), sequence, eventId, d)
    {
      hide Admission, FactsOf, AdvisoriesOf;
      var status := Admit(d);
      decisions := decisions[d.deliveryId := Decision(d, status)];
      deliveries := deliveries + [DeliveryRecord(d.deliveryId, d.workerId, eventId, status,
                                    if status.Accepted? then Some(sequence) else None, d)];
      if !status.Accepted? {
        if status.Rejected? && d.workerId in workers && workers[d.workerId].status.Running? {
          workers := workers[d.workerId := workers[d.workerId].(status := Superseded)];
        }
        return;
      }
      AdmittedContract(old(Value()), d);
      workers := workers[d.workerId := workers[d.workerId].(status := Completed)];
      PublishResult(sequence, d);
    }

    method ApplyPolicyEvent(p: Payload) returns (failure: Option<KernelError>)
      requires p.PolicyAdvanced?
      modifies this`policy
      ensures ApplyPolicy(old(Value()), p) == if failure.Some? then Err(failure.value) else Ok(Value())
      ensures failure.Some? ==> Value() == old(Value())
    {
      if p.epoch != policy.epoch + 1 { return Some(PolicyEpochSkipped); }
      policy := Policy(p.epoch, p.invariants);
      failure := None;
    }

    /** One event: the transition of `Apply` in place, or an error that leaves the state alone. */
    method ApplyEvent(sequence: nat, draft: Draft) returns (failure: Option<KernelError>)
      modifies this
      ensures Apply(old(Value()), sequence, draft) == if failure.Some? then Err(failure.value) else Ok(Value())
      ensures failure.Some? ==> Value() == old(Value())
    {
      hide ApplyFact, ApplyGoal, ApplyCommitment, ApplyPolicy, ApplyCheckpoint, ApplySpawn, ApplyWorkerEnd;
      hide ApplyDelivery;
      var p := draft.payload;
      match p
      case FactAsserted(_, _, _) => failure := ApplyFactEvent(sequence, p);
      case FactCorrected(_, _, _, _, _) => failure := ApplyFactEvent(sequence, p);
      case GoalActivated(_, _) => failure := ApplyGoalEvent(sequence, p);
      case GoalCompleted(_) => failure := ApplyGoalEvent(sequence, p);
      case GoalSuspended(_, _) => failure := ApplyGoalEvent(sequence, p);
      case GoalResumed(_) => failure := ApplyGoalEvent(sequence, p);
      case CommitmentOpened(_, _, _) => failure := ApplyCommitmentEvent(sequence, p);
      case CommitmentResolved(_, _) => failure := ApplyCommitmentEvent(sequence, p);
      case PolicyAdvanced(_, _) => failure := ApplyPolicyEvent(p);
      case FlowCheckpointRecorded(checkpoint) => failure := ApplyCheckpointEvent(sequence, checkpoint);
      case WorkerSpawned(_, _, _, _, _) => failure := ApplySpawnEvent(sequence, p);
      case WorkerCancelled(workerId, _) => failure := ApplyWorkerEndEvent(workerId, Cancelled);
      case WorkerFinished(workerId, status, _, _) => failure := ApplyWorkerEndEvent(workerId, status);
      case WorkerResultDelivered(delivery) => failure := ApplyDeliveryEvent(sequence, draft.eventId, delivery);
      case AdvisoryRecorded(episodeId, summary) =>
        advisories := advisories + [Advisory(episodeId, summary, FromModel, sequence)];
        failure := None;
    }
  }

  method ValidateConversationLog(log: Log) returns (failure: Option<KernelError>)
    ensures failure == LogFault(log, 0)
    ensures failure.None? <==> ValidLog(log)
  {
    hide WellFormedPayload, ValidLog;
    ValidationExact(log);
    var previousHash, eventIds: set<Id>, i := Genesis, {}, 0;
    while i < |log.events|
      invariant 0 <= i <= |log.events|
      invariant previousHash == HeadHash(log.events[..i])
      invariant eventIds == IdsBefore(log.events, i)
      invariant LogFault(log, 0) == LogFault(log, i)
    {
      var event := log.events[i];
      var eventId := event.draft.eventId;
      if !WellFormedPayload(event.draft.payload) { return Some(InvalidSchema); }
      if event.conversationId != log.conversationId { return Some(ForeignEvent(eventId)); }
      if event.sequence != i + 1 { return Some(SequenceGap(eventId)); }
      if event.previousHash != previousHash { return Some(BrokenChain(eventId)); }
      if eventId in eventIds { return Some(DuplicateEvent(eventId)); }
      eventIds := eventIds + {eventId};
      if Digest(event.conversationId, event.sequence, event.previousHash, event.draft) != event.hash {
        return Some(InvalidHash(eventId));
      }
      previousHash := event.hash;
      i := i + 1;
      assert log.events[..i][|log.events[..i]| - 1] == event;
    }
    failure := None;
  }

  /** Replays every event of a log into a fresh state. */
  method Replay(log: Log) returns (state: MutableState, failure: Option<KernelError>)
    ensures fresh(state)
    ensures Fold(DraftsOf(log.events)) == if failure.Some? then Err(failure.value) else Ok(state.Value())
  {
    hide Apply;
    state := new MutableState();
    var i := 0;
    ghost var drafts := DraftsOf(log.events);
    while i < |log.events|
      invariant 0 <= i <= |log.events|
      invariant fresh(state)
      invariant Fold(drafts[..i]) == Ok(state.Value())
    {
      assert drafts[..i + 1][..i] == drafts[..i] && drafts[..i + 1][i] == log.events[i].draft;
      failure := state.ApplyEvent(i + 1, log.events[i].draft);
      if failure.Some? {
        FoldStopsAt(drafts, i + 1);
        return;
      }
      i := i + 1;
    }
    assert drafts[..i] == drafts;
    failure := None;
  }

  lemma {:induction false} FoldStopsAt(drafts: seq<Draft>, k: nat)
    requires k <= |drafts| && Fold(drafts[..k]).Err?
    ensures Fold(drafts) == Fold(drafts[..k])
  {
    hide Apply;
    if k == |drafts| {
      assert drafts[..k] == drafts;
    } else {
      assert drafts[..|drafts| - 1][..k] == drafts[..k];
      FoldStopsAt(drafts[..|drafts| - 1], k);
    }
  }

  method FoldConversation(log: Log) returns (r: Result<State, KernelError>)
    ensures r == FoldLog(log)
    ensures r.Ok? ==> ValidLog(log) && OneActiveGoal(r.value) && WorkersBounded(r.value) && ExactlyOnce(r.value)
  {
    hide LogFault, OneActiveGoal, WorkersBounded, ExactlyOnce;
    var invalid := ValidateConversationLog(log);
    if invalid.Some? { return Err(invalid.value); }
    var state, failure := Replay(log);
    if failure.Some? { return Err(failure.value); }
    ReachableShape(DraftsOf(log.events));
    ValidDrafts(log);
    ExactlyOnceResults(DraftsOf(log.events));
    r := Ok(state.Value());
  }

  /** The `eventsById` map of the append loop. */
  ghost predicate Indexes(byId: map<Id, Event>, events: seq<Event>) {
    forall id :: Lookup(events, id) == if id in byId then Some(byId[id]) else None
  }

  lemma IndexOneMore(byId: map<Id, Event>, events: seq<Event>, event: Event)
    requires Indexes(byId, events)
    ensures Indexes(byId[event.draft.eventId := event], events + [event])
  {
    assert (events + [event])[..|events|] == events;
  }

  method IndexEvents(events: seq<Event>) returns (byId: map<Id, Event>)
    ensures Indexes(byId, events)
  {
    byId := map[];
    for i := 0 to |events|
      invariant Indexes(byId, events[..i])
    {
      IndexOneMore(byId, events[..i], events[i]);
      assert events[..i + 1] == events[..i] + [events[i]];
      byId := byId[events[i].draft.eventId := events[i]];
    }
    assert events[..|events|] == events;
  }

  /** One turn of the append loop. */
  method AppendDraft(
      bytes: Event -> nat, log: Log, byId: map<Id, Event>, state: MutableState, draft: Draft)
    returns (added: Option<Event>, failure: Option<KernelError>)
    requires Indexes(byId, log.events)
    modifies state
    ensures added.Some? ==> added.value.draft.eventId == draft.eventId
    ensures AppendOne(bytes, Folded(log, old(state.Value())), draft) ==
            if failure.Some? then Err(failure.value)
            else Ok(Folded(if added.Some? then log.(events := log.events + [added.value]) else log, state.Value()))
  {
    hide Apply, WellFormedPayload;
    added := None;
    if !WellFormedPayload(draft.payload) { return None, Some(InvalidSchema); }
    assert Lookup(log.events, draft.eventId) == if draft.eventId in byId then Some(byId[draft.eventId]) else None;
    if draft.eventId in byId {
      failure := if byId[draft.eventId].draft != draft then Some(ConflictingReplay(draft.eventId)) else None;
      return;
    }
    var event := MakeEvent(log.conversationId, |log.events| + 1, HeadHash(log.events), draft);
    if bytes(event) > MAX_EVENT_BYTES { return None, Some(EventTooLarge(draft.eventId)); }
    failure := state.ApplyEvent(|log.events| + 1, draft);
    added := Some(event);
  }

  method AppendConversationEvents(bytes: Event -> nat, log: Log, inputs: seq<Draft>)
    returns (r: Result<Log, KernelError>)
    ensures r == Append(bytes, log, inputs)
  {
    hide LogFault, AppendOne, Indexes, Fold;
    var invalid := ValidateConversationLog(log);
    if invalid.Some? { return Err(invalid.value); }
    var state, failure := Replay(log);
    if failure.Some? { return Err(failure.value); }
    var grown := log;
    var byId: map<Id, Event> := IndexEvents(log.events);
    ghost var start := Folded(log, state.Value());
    var i := 0;
    while i < |inputs|
      invariant 0 <= i <= |inputs|
      invariant fresh(state) && Indexes(byId, grown.events)
      invariant AppendAll(bytes, start, inputs) == AppendAll(bytes, Folded(grown, state.Value()), inputs[i..])
    {
      assert inputs[i..][0] == inputs[i] && inputs[i..][1..] == inputs[i + 1..];
      var added;
      added, failure := AppendDraft(bytes, grown, byId, state, inputs[i]);
      if failure.Some? { return Err(failure.value); }
      if added.Some? {
        IndexOneMore(byId, grown.events, added.value);
        grown := grown.(events := grown.events + [added.value]);
        byId := byId[added.value.draft.eventId := added.value];
      }
      i := i + 1;
    }
    r := Ok(grown);
  }
}
