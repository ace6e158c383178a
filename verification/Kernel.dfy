/**
 * The conversation kernel: event kinds, the state folded from them, and the
 * transition that each event makes.
 *
 * Identifiers and JSON values are numbers of which only equality and order matter.
 * A hash is the term it digests, which makes it injective by construction.
 */
module Kernel {
  import opened Common
  import opened Utf8Text
  import Sorting

  type Id = nat

  type Value = nat

  const MAX_FACTS_PER_DELIVERY := 32
  const MAX_ADVISORIES_PER_DELIVERY := 16
  const MAX_DEPENDENCIES_PER_WORKER := 64
  const MAX_ACTIVE_WORKERS_PER_GOAL := 8
  const MAX_UNRESOLVED_FLOW_ACTIONS := 64
  const MAX_INVARIANTS := 64

  // Event payloads

  datatype Dependency = Dependency(key: Id, revision: nat)

  datatype Invariant = Invariant(invariantId: Id, text: Text)

  datatype WorkerFact = WorkerFact(key: Id, value: Value, evidenceId: Id)

  datatype WorkerAdvisory = WorkerAdvisory(episodeId: Id, text: Text)

  datatype FlowStatus = FlowRouting | FlowActive | FlowCompleted | FlowFailed

  datatype Checkpoint = Checkpoint(
    goalId: Id, runtimeDigest: Id, flowRevision: nat, capabilityEpoch: nat, status: FlowStatus,
    nodeId: Option<Text>, currentStep: Option<Text>, completedStepCount: nat,
    unresolvedActionIds: seq<Id>, stateDigest: Id)

  datatype Delivery = Delivery(
    deliveryId: Id, workerId: Id, goalId: Id, policyEpoch: nat, dependencies: seq<Dependency>,
    facts: seq<WorkerFact>, advisories: seq<WorkerAdvisory>)

  datatype WorkerStatus =
    | Running
    | Completed
    | Cancelled
    | Failed
    | Indeterminate
    | Superseded

  datatype Payload =
    | FactAsserted(key: Id, value: Value, authority: Id)
    | FactCorrected(key: Id, value: Value, expectedRevision: nat, revision: nat, authority: Id)
    | GoalActivated(goalId: Id, description: Text)
    | GoalCompleted(goalId: Id)
    | GoalSuspended(goalId: Id, reason: Text)
    | GoalResumed(goalId: Id)
    | CommitmentOpened(commitmentId: Id, goalId: Id, description: Text)
    | CommitmentResolved(commitmentId: Id, resolution: Text)
    | PolicyAdvanced(epoch: nat, invariants: seq<Invariant>)
    | FlowCheckpointRecorded(checkpoint: Checkpoint)
    | WorkerSpawned(workerId: Id, goalId: Id, purpose: Text, policyEpoch: nat, dependencies: seq<Dependency>)
    | WorkerCancelled(workerId: Id, reason: Text)
    | WorkerFinished(workerId: Id, status: WorkerStatus, reasonCode: Id, evidence: Id)
    | WorkerResultDelivered(delivery: Delivery)
    | AdvisoryRecorded(episodeId: Id, summary: Text)

  datatype Draft = Draft(eventId: Id, occurredAtMs: nat, payload: Payload)

  datatype Hash = Genesis | Digest(conversationId: Id, sequence: nat, previous: Hash, draft: Draft)

  datatype Event = Event(conversationId: Id, sequence: nat, previousHash: Hash, draft: Draft, hash: Hash)

  predicate Distinct<T(==)>(s: seq<T>) {
    forall i, j :: 0 <= i < j < |s| ==> s[i] != s[j]
  }

  predicate DistinctKeys(s: seq<Dependency>) {
    forall i, j :: 0 <= i < j < |s| ==> s[i].key != s[j].key
  }

  /** The cross-field rules of the payload schemas. */
  predicate WellFormedPayload(p: Payload) {
    match p
    case FactCorrected(_, _, expectedRevision, revision, _) => expectedRevision >= 1 && revision >= 1
    case PolicyAdvanced(epoch, invariants) =>
      && epoch >= 1 && |invariants| <= MAX_INVARIANTS
      && forall i, j :: 0 <= i < j < |invariants| ==> invariants[i].invariantId != invariants[j].invariantId
    case FlowCheckpointRecorded(c) =>
      && |c.unresolvedActionIds| <= MAX_UNRESOLVED_FLOW_ACTIONS && Distinct(c.unresolvedActionIds)
      && (c.status.FlowRouting? ==> c.nodeId.None? && c.currentStep.None?)
      && (c.status.FlowActive? ==> c.nodeId.Some?)
      && (c.status.FlowCompleted? || c.status.FlowFailed? ==> c.currentStep.None?)
    case WorkerSpawned(_, _, _, _, dependencies) =>
      |dependencies| <= MAX_DEPENDENCIES_PER_WORKER && DistinctKeys(dependencies)
    case WorkerFinished(_, status, _, _) => status.Failed? || status.Cancelled? || status.Indeterminate?
    case WorkerResultDelivered(d) =>
      && |d.dependencies| <= MAX_DEPENDENCIES_PER_WORKER && DistinctKeys(d.dependencies)
      && |d.facts| <= MAX_FACTS_PER_DELIVERY
      && (forall i, j :: 0 <= i < j < |d.facts| ==> d.facts[i].key != d.facts[j].key)
      && |d.advisories| <= MAX_ADVISORIES_PER_DELIVERY
      && (forall i, j :: 0 <= i < j < |d.advisories| ==> d.advisories[i].episodeId != d.advisories[j].episodeId)
    case _ => true
  }

  // Folded state

  datatype Fact = Fact(value: Value, revision: nat, authority: Id, sequence: nat)

  datatype GoalStatus = GoalActive | GoalDone | GoalPaused

  datatype Goal = Goal(description: Text, activatedSequence: nat, status: GoalStatus)

  datatype Resolution = Resolution(text: Text, sequence: nat)

  datatype Commitment = Commitment(goalId: Id, description: Text, openedSequence: nat, resolution: Option<Resolution>)

  datatype Policy = Policy(epoch: nat, invariants: seq<Invariant>)

  datatype CheckpointRecord = CheckpointRecord(checkpoint: Checkpoint, sequence: nat)

  datatype Worker = Worker(
    goalId: Id, purpose: Text, policyEpoch: nat, dependencies: seq<Dependency>,
    spawnedSequence: nat, status: WorkerStatus)

  datatype DeliveryStatus = Accepted | Deferred | Rejected | Duplicate

  datatype DeliveryRecord = DeliveryRecord(
    deliveryId: Id, workerId: Id, eventId: Id, status: DeliveryStatus, appliedSequence: Option<nat>, content: Delivery)

  /** The decision kept per delivery id, with the content it was made on. */
  datatype Decision = Decision(content: Delivery, status: DeliveryStatus)

  datatype AcceptedFact = AcceptedFact(
    fact: WorkerFact, workerId: Id, deliveryId: Id, goalId: Id, policyEpoch: nat,
    dependencies: seq<Dependency>, acceptedSequence: nat)

  datatype AdvisorySource = FromModel | FromWorker

  datatype Advisory = Advisory(episodeId: Id, text: Text, source: AdvisorySource, sequence: nat)

  datatype State = State(
    facts: map<Id, Fact>,
    goals: map<Id, Goal>,
    currentGoalId: Option<Id>,
    commitments: map<Id, Commitment>,
    policy: Policy,
    checkpoints: map<Id, CheckpointRecord>,
    workers: map<Id, Worker>,
    deliveries: seq<DeliveryRecord>,
    decisions: map<Id, Decision>,
    workerFacts: seq<AcceptedFact>,
    advisories: seq<Advisory>)

  const EmptyState := State(map[], map[], None, map[], Policy(0, []), map[], map[], [], map[], [], [])

  datatype KernelError =
    | FactExists(key: Id)
    | FactMissing(key: Id)
    | FactRevisionStale(key: Id)
    | GoalExists(goalId: Id)
    | GoalNotActive(goalId: Id)
    | GoalNotSuspended(goalId: Id)
    | AnotherGoalActive(goalId: Id)
    | CommitmentExists(commitmentId: Id)
    | CommitmentGoalMissing(goalId: Id)
    | CommitmentNotOpen(commitmentId: Id)
    | PolicyEpochSkipped
    | CheckpointNotCurrentGoal
    | CheckpointTerminal
    | CheckpointDigestChanged
    | CheckpointRevisionStale
    | CheckpointEpochRewound
    | WorkerExists(workerId: Id)
    | WorkerGoalNotCurrent
    | WorkerEpochNotCurrent
    | TooManyActiveWorkers
    | DependencyNotCurrent(key: Id)
    | WorkerNotRunning(workerId: Id)
    | DeliveryContentChanged(deliveryId: Id)
    | InvalidSchema
    | ForeignEvent(eventId: Id)
    | SequenceGap(eventId: Id)
    | BrokenChain(eventId: Id)
    | DuplicateEvent(eventId: Id)
    | InvalidHash(eventId: Id)
    | ConflictingReplay(eventId: Id)
    | EventTooLarge(eventId: Id)

  type Step = Result<State, KernelError>

  // Transitions, one function per family of event kinds

  function ApplyFact(s: State, sequence: nat, p: Payload): (r: Step)
    requires p.FactAsserted? || p.FactCorrected?
    ensures r.Ok? ==> r.value == s.(facts := r.value.facts)
  {
    if p.FactAsserted? then
      if p.key in s.facts then Err(FactExists(p.key))
      else Ok(s.(facts := s.facts[p.key := Fact(p.value, 1, p.authority, sequence)]))
    else if p.key !in s.facts then Err(FactMissing(p.key))
    else if s.facts[p.key].revision != p.expectedRevision || p.revision != s.facts[p.key].revision + 1 then
      Err(FactRevisionStale(p.key))
    else Ok(s.(facts := s.facts[p.key := Fact(p.value, p.revision, p.authority, sequence)]))
  }

  predicate IsActiveGoal(s: State, goalId: Id) {
    goalId in s.goals && s.goals[goalId].status.GoalActive? && s.currentGoalId == Some(goalId)
  }

  /** Activating a goal suspends the one that was current and still active. */
  function SuspendCurrent(s: State): map<Id, Goal> {
    match s.currentGoalId
    case Some(prior) =>
      if prior in s.goals && s.goals[prior].status.GoalActive?
      then s.goals[prior := s.goals[prior].(status := GoalPaused)]
      else s.goals
    case None => s.goals
  }

  function ApplyGoal(s: State, sequence: nat, p: Payload): (r: Step)
    requires p.GoalActivated? || p.GoalCompleted? || p.GoalSuspended? || p.GoalResumed?
    ensures r.Ok? ==> r.value == s.(goals := r.value.goals, currentGoalId := r.value.currentGoalId)
  {
    match p
    case GoalActivated(goalId, description) =>
      if goalId in s.goals then Err(GoalExists(goalId))
      else Ok(s.(goals := SuspendCurrent(s)[goalId := Goal(description, sequence, GoalActive)],
                 currentGoalId := Some(goalId)))
    case GoalCompleted(goalId) =>
      if !IsActiveGoal(s, goalId) then Err(GoalNotActive(goalId))
      else Ok(s.(goals := s.goals[goalId := s.goals[goalId].(status := GoalDone)], currentGoalId := None))
    case GoalSuspended(goalId, _) =>
      if !IsActiveGoal(s, goalId) then Err(GoalNotActive(goalId))
      else Ok(s.(goals := s.goals[goalId := s.goals[goalId].(status := GoalPaused)], currentGoalId := None))
    case GoalResumed(goalId) =>
      if goalId !in s.goals || !s.goals[goalId].status.GoalPaused? then Err(GoalNotSuspended(goalId))
      else if s.currentGoalId.Some? then Err(AnotherGoalActive(goalId))
      else Ok(s.(goals := s.goals[goalId := s.goals[goalId].(status := GoalActive)], currentGoalId := Some(goalId)))
  }

  function ApplyCommitment(s: State, sequence: nat, p: Payload): (r: Step)
    requires p.CommitmentOpened? || p.CommitmentResolved?
    ensures r.Ok? ==> r.value == s.(commitments := r.value.commitments)
  {
    if p.CommitmentOpened? then
      if p.commitmentId in s.commitments then Err(CommitmentExists(p.commitmentId))
      else if p.goalId !in s.goals then Err(CommitmentGoalMissing(p.goalId))
      else Ok(s.(commitments := s.commitments[p.commitmentId := Commitment(p.goalId, p.description, sequence, None)]))
    else if p.commitmentId !in s.commitments || s.commitments[p.commitmentId].resolution.Some? then
      Err(CommitmentNotOpen(p.commitmentId))
    else Ok(s.(commitments := s.commitments[p.commitmentId :=
                 s.commitments[p.commitmentId].(resolution := Some(Resolution(p.resolution, sequence)))]))
  }

  function ApplyPolicy(s: State, p: Payload): Step
    requires p.PolicyAdvanced?
  {
    if p.epoch != s.policy.epoch + 1 then Err(PolicyEpochSkipped)
    else Ok(s.(policy := Policy(p.epoch, p.invariants)))
  }

  function ApplyCheckpoint(s: State, sequence: nat, c: Checkpoint): (r: Step)
    ensures r.Ok? ==> r.value == s.(checkpoints := r.value.checkpoints)
  {
    if s.currentGoalId != Some(c.goalId) then Err(CheckpointNotCurrentGoal)
    else if c.goalId in s.checkpoints && var prior := s.checkpoints[c.goalId].checkpoint.status;
            prior.FlowCompleted? || prior.FlowFailed? then Err(CheckpointTerminal)
    else if c.goalId in s.checkpoints && c.runtimeDigest != s.checkpoints[c.goalId].checkpoint.runtimeDigest then
      Err(CheckpointDigestChanged)
    else if c.goalId in s.checkpoints && c.flowRevision <= s.checkpoints[c.goalId].checkpoint.flowRevision then
      Err(CheckpointRevisionStale)
    else if c.goalId in s.checkpoints && c.capabilityEpoch < s.checkpoints[c.goalId].checkpoint.capabilityEpoch then
      Err(CheckpointEpochRewound)
    else Ok(s.(checkpoints := s.checkpoints[c.goalId := CheckpointRecord(c, sequence)]))
  }

  /** The workers of one goal that are still running. */
  function RunningWorkers(s: State, goalId: Id): set<Id> {
    set w | w in s.workers && s.workers[w].goalId == goalId && s.workers[w].status.Running?
  }

  predicate RevisionIs(s: State, d: Dependency) {
    d.key in s.facts && s.facts[d.key].revision == d.revision
  }

  /** The first declared dependency whose fact is not at the declared revision. */
  function FirstStale(s: State, dependencies: seq<Dependency>): (r: Option<Id>)
    ensures r.None? <==> forall i :: 0 <= i < |dependencies| ==> RevisionIs(s, dependencies[i])
  {
    if dependencies == [] then None
    else if !RevisionIs(s, dependencies[0]) then Some(dependencies[0].key)
    else
      assert forall i :: 0 < i < |dependencies| ==> dependencies[i] == dependencies[1..][i - 1];
      FirstStale(s, dependencies[1..])
  }

  function ApplySpawn(s: State, sequence: nat, p: Payload): (r: Step)
    requires p.WorkerSpawned?
    ensures r.Ok? ==> r.value == s.(workers := r.value.workers)
  {
    if p.workerId in s.workers then Err(WorkerExists(p.workerId))
    else if s.currentGoalId != Some(p.goalId) then Err(WorkerGoalNotCurrent)
    else if p.policyEpoch != s.policy.epoch then Err(WorkerEpochNotCurrent)
    else if |RunningWorkers(s, p.goalId)| >= MAX_ACTIVE_WORKERS_PER_GOAL then Err(TooManyActiveWorkers)
    else match FirstStale(s, p.dependencies)
      case Some(key) => Err(DependencyNotCurrent(key))
      case None =>
        Ok(s.(workers := s.workers[p.workerId :=
             Worker(p.goalId, p.purpose, p.policyEpoch, p.dependencies, sequence, Running)]))
  }

  function SetWorkerStatus(s: State, workerId: Id, status: WorkerStatus): (r: State)
    requires workerId in s.workers
    ensures r == s.(workers := r.workers)
  {
    s.(workers := s.workers[workerId := s.workers[workerId].(status := status)])
  }

  function ApplyWorkerEnd(s: State, workerId: Id, status: WorkerStatus): (r: Step)
    ensures r.Ok? ==> r.value == s.(workers := r.value.workers)
  {
    if workerId !in s.workers || !s.workers[workerId].status.Running? then Err(WorkerNotRunning(workerId))
    else Ok(SetWorkerStatus(s, workerId, status))
  }

  predicate KeyLess(a: Dependency, b: Dependency) { a.key < b.key }

  /** Both declarations are sorted by key and then compared. */
  predicate DependenciesMatch(expected: seq<Dependency>, actual: seq<Dependency>) {
    Sorting.Sort(expected, KeyLess) == Sorting.Sort(actual, KeyLess)
  }

  /** The admission decision on a delivery whose content is not already decided. */
  function Admission(s: State, d: Delivery): DeliveryStatus {
    if d.workerId !in s.workers || !s.workers[d.workerId].status.Running? then Rejected
    else
      var worker := s.workers[d.workerId];
      if d.goalId != worker.goalId then Rejected
      else if worker.goalId in s.goals && s.goals[worker.goalId].status.GoalPaused? then Deferred
      else if s.currentGoalId != Some(d.goalId) then Rejected
      else if d.policyEpoch != worker.policyEpoch || d.policyEpoch != s.policy.epoch then Rejected
      else if !DependenciesMatch(d.dependencies, worker.dependencies) then Rejected
      else if FirstStale(s, worker.dependencies).Some? then Rejected
      else Accepted
  }

  function FactsOf(d: Delivery, facts: seq<WorkerFact>, sequence: nat): (r: seq<AcceptedFact>)
    ensures |r| == |facts|
    ensures forall i :: 0 <= i < |r| ==>
      r[i] == AcceptedFact(facts[i], d.workerId, d.deliveryId, d.goalId, d.policyEpoch, d.dependencies, sequence)
  {
    seq(|facts|, i requires 0 <= i < |facts| =>
      AcceptedFact(facts[i], d.workerId, d.deliveryId, d.goalId, d.policyEpoch, d.dependencies, sequence))
  }

  function AdvisoriesOf(advisories: seq<WorkerAdvisory>, sequence: nat): (r: seq<Advisory>)
    ensures |r| == |advisories|
    ensures forall i :: 0 <= i < |r| ==>
      r[i] == Advisory(advisories[i].episodeId, advisories[i].text, FromWorker, sequence)
  {
    seq(|advisories|, i requires 0 <= i < |advisories| =>
      Advisory(advisories[i].episodeId, advisories[i].text, FromWorker, sequence))
  }

  /** The state with one more delivery decided. */
  function WithDecision(s: State, sequence: nat, eventId: Id, d: Delivery, status: DeliveryStatus): (r: State)
    ensures r == s.(decisions := r.decisions, deliveries := r.deliveries)
  {
    s.(decisions := s.decisions[d.deliveryId := Decision(d, status)],
       deliveries := s.deliveries + [DeliveryRecord(d.deliveryId, d.workerId, eventId, status,
                                       if status.Accepted? then Some(sequence) else None, d)])
  }

  function Decide(s: State, sequence: nat, eventId: Id, d: Delivery): State {
    var status := Admission(s, d);
    var s1 := WithDecision(s, sequence, eventId, d, status);
    if status.Accepted? then
      SetWorkerStatus(s1, d.workerId, Completed).(
        workerFacts := s1.workerFacts + FactsOf(d, d.facts, sequence),
        advisories := s1.advisories + AdvisoriesOf(d.advisories, sequence))
    else if status.Rejected? && d.workerId in s.workers && s.workers[d.workerId].status.Running? then
      SetWorkerStatus(s1, d.workerId, Superseded)
    else s1
  }

  function ApplyDelivery(s: State, sequence: nat, eventId: Id, d: Delivery): (r: Step)
    ensures r.Ok? ==>
      r.value == s.(workers := r.value.workers, deliveries := r.value.deliveries, decisions := r.value.decisions,
                    workerFacts := r.value.workerFacts, advisories := r.value.advisories)
  {
    if d.deliveryId in s.decisions && s.decisions[d.deliveryId].content != d then
      Err(DeliveryContentChanged(d.deliveryId))
    else if d.deliveryId in s.decisions && !s.decisions[d.deliveryId].status.Deferred? then
      Ok(s.(deliveries := s.deliveries + [DeliveryRecord(d.deliveryId, d.workerId, eventId, Duplicate, None, d)]))
    else Ok(Decide(s, sequence, eventId, d))
  }

  function Apply(s: State, sequence: nat, draft: Draft): Step {
    match draft.payload
    case FactAsserted(_, _, _) => ApplyFact(s, sequence, draft.payload)
    case FactCorrected(_, _, _, _, _) => ApplyFact(s, sequence, draft.payload)
    case GoalActivated(_, _) => ApplyGoal(s, sequence, draft.payload)
    case GoalCompleted(_) => ApplyGoal(s, sequence, draft.payload)
    case GoalSuspended(_, _) => ApplyGoal(s, sequence, draft.payload)
    case GoalResumed(_) => ApplyGoal(s, sequence, draft.payload)
    case CommitmentOpened(_, _, _) => ApplyCommitment(s, sequence, draft.payload)
    case CommitmentResolved(_, _) => ApplyCommitment(s, sequence, draft.payload)
    case PolicyAdvanced(_, _) => ApplyPolicy(s, draft.payload)
    case FlowCheckpointRecorded(checkpoint) => ApplyCheckpoint(s, sequence, checkpoint)
    case WorkerSpawned(_, _, _, _, _) => ApplySpawn(s, sequence, draft.payload)
    case WorkerCancelled(workerId, _) => ApplyWorkerEnd(s, workerId, Cancelled)
    case WorkerFinished(workerId, status, _, _) => ApplyWorkerEnd(s, workerId, status)
    case WorkerResultDelivered(delivery) => ApplyDelivery(s, sequence, draft.eventId, delivery)
    case AdvisoryRecorded(episodeId, summary) =>
      Ok(s.(advisories := s.advisories + [Advisory(episodeId, summary, FromModel, sequence)]))
  }

  /** The state after a sequence of drafts at sequence numbers 1, 2, …, or the first failure. */
  function Fold(drafts: seq<Draft>): Step {
    if drafts == [] then Ok(EmptyState)
    else match Fold(drafts[..|drafts| - 1])
      case Err(e) => Err(e)
      case Ok(s) => Apply(s, |drafts|, drafts[|drafts| - 1])
  }

  /** With distinct keys, sorting and comparing is comparing as sets. */
  lemma MatchIsSetEquality(a: seq<Dependency>, b: seq<Dependency>)
    requires DistinctKeys(a) && DistinctKeys(b)
    ensures DependenciesMatch(a, b) <==> (forall d :: d in a <==> d in b)
  {
    Sorting.SortPermutes(a, KeyLess);
    Sorting.SortPermutes(b, KeyLess);
    if DependenciesMatch(a, b) {
      forall d ensures d in a <==> d in b {
        Sorting.SortKeepsMembers(a, KeyLess, d);
        Sorting.SortKeepsMembers(b, KeyLess, d);
      }
    }
    if forall d :: d in a <==> d in b {
      DistinctMultiset(a);
      DistinctMultiset(b);
      assert multiset(a) == multiset(b);
      Sorting.SortOrders(a, KeyLess);
      Sorting.SortOrders(b, KeyLess);
      forall x, y | x in Sorting.Sort(a, KeyLess) && y in Sorting.Sort(a, KeyLess) && x != y
        ensures KeyLess(x, y) || KeyLess(y, x)
      {
        Sorting.SortKeepsMembers(a, KeyLess, x);
        Sorting.SortKeepsMembers(a, KeyLess, y);
      }
      Sorting.OrderedUnique(Sorting.Sort(a, KeyLess), Sorting.Sort(b, KeyLess), KeyLess);
    }
  }

  lemma {:induction false} DistinctMultiset(a: seq<Dependency>)
    requires DistinctKeys(a)
    ensures forall d :: multiset(a)[d] == if d in a then 1 else 0
  {
    if a != [] {
      DistinctMultiset(a[1..]);
      assert a == [a[0]] + a[1..];
    }
  }
}
