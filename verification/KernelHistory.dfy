/**
 * The conversation state read straight from the log: which event each fact, goal, commitment, checkpoint, policy and
 * worker comes from, and which events the log so far allows.  Nothing here follows the transitions.
 */
module KernelHistory {
  import opened Common
  import opened Kernel

  // Facts

  predicate Asserts(p: Payload, key: Id) {
    p.FactAsserted? && p.key == key
  }

  predicate Corrects(p: Payload, key: Id) {
    p.FactCorrected? && p.key == key
  }

  ghost predicate Asserted(log: seq<Draft>, key: Id) {
    exists i :: 0 <= i < |log| && Asserts(log[i].payload, key)
  }

  function Corrections(log: seq<Draft>, key: Id): nat {
    if log == [] then 0
    else Corrections(log[..|log| - 1], key) + if Corrects(log[|log| - 1].payload, key) then 1 else 0
  }

  /** Event `i` is the last one that asserted or corrected the fact. */
  ghost predicate LastFact(log: seq<Draft>, key: Id, i: nat) {
    && i < |log| && (Asserts(log[i].payload, key) || Corrects(log[i].payload, key))
    && forall j :: i < j < |log| ==> !Asserts(log[j].payload, key) && !Corrects(log[j].payload, key)
  }

  /** A fact is what its last event said, and has been revised as often as it was corrected. */
  ghost predicate FactTold(log: seq<Draft>, facts: map<Id, Fact>, key: Id) {
    && (key in facts <==> Asserted(log, key))
    && (key in facts ==>
          exists i: nat :: LastFact(log, key, i) &&
            facts[key] == Fact(log[i].payload.value, 1 + Corrections(log, key), log[i].payload.authority, i + 1))
  }

  ghost predicate RevisionIn(log: seq<Draft>, d: Dependency) {
    Asserted(log, d.key) && 1 + Corrections(log, d.key) == d.revision
  }

  // Policy

  function Epochs(log: seq<Draft>): nat {
    if log == [] then 0 else Epochs(log[..|log| - 1]) + if log[|log| - 1].payload.PolicyAdvanced? then 1 else 0
  }

  ghost predicate PolicyTold(log: seq<Draft>, policy: Policy) {
    && policy.epoch == Epochs(log)
    && if policy.epoch == 0 then policy.invariants == []
       else exists i :: 0 <= i < |log| && log[i].payload.PolicyAdvanced?
              && policy.invariants == log[i].payload.invariants
              && forall j :: i < j < |log| ==> !log[j].payload.PolicyAdvanced?
  }

  // Goals

  predicate Activates(p: Payload, g: Id) {
    p.GoalActivated? && p.goalId == g
  }

  predicate ActivatesOther(p: Payload, g: Id) {
    p.GoalActivated? && p.goalId != g
  }

  /** The event is about this goal. */
  predicate GoalEvent(p: Payload, g: Id) {
    (p.GoalActivated? || p.GoalCompleted? || p.GoalSuspended? || p.GoalResumed?) && p.goalId == g
  }

  ghost predicate LastGoal(log: seq<Draft>, g: Id, i: nat) {
    i < |log| && GoalEvent(log[i].payload, g) && forall j :: i < j < |log| ==> !GoalEvent(log[j].payload, g)
  }

  ghost predicate Displaced(log: seq<Draft>, g: Id, i: nat) {
    exists j :: i < j < |log| && ActivatesOther(log[j].payload, g)
  }

  predicate Opening(p: Payload) {
    p.GoalActivated? || p.GoalResumed?
  }

  /** Last activated or resumed, and no other goal was activated since. */
  ghost predicate ActiveIn(log: seq<Draft>, g: Id) {
    exists i: nat :: LastGoal(log, g, i) && Opening(log[i].payload) && !Displaced(log, g, i)
  }

  /** Last suspended, or displaced by another goal since it was last activated or resumed. */
  ghost predicate PausedIn(log: seq<Draft>, g: Id) {
    exists i: nat :: LastGoal(log, g, i) &&
      (log[i].payload.GoalSuspended? || (Opening(log[i].payload) && Displaced(log, g, i)))
  }

  ghost predicate DoneIn(log: seq<Draft>, g: Id) {
    exists i: nat :: LastGoal(log, g, i) && log[i].payload.GoalCompleted?
  }

  ghost predicate Activated(log: seq<Draft>, g: Id) {
    exists i :: 0 <= i < |log| && Activates(log[i].payload, g)
  }

  /** A goal is what its activation said, in the status its last events left it. */
  ghost predicate GoalTold(log: seq<Draft>, goals: map<Id, Goal>, g: Id) {
    && (g in goals <==> Activated(log, g))
    && (g in goals ==> GoalFrom(log, g, goals[g]))
    && (ActiveIn(log, g) <==> g in goals && goals[g].status.GoalActive?)
    && (PausedIn(log, g) <==> g in goals && goals[g].status.GoalPaused?)
    && (DoneIn(log, g) <==> g in goals && goals[g].status.GoalDone?)
  }

  ghost predicate GoalFrom(log: seq<Draft>, g: Id, goal: Goal) {
    exists i: nat :: i < |log| && Activates(log[i].payload, g)
      && goal.description == log[i].payload.description && goal.activatedSequence == i + 1
  }

  // Commitments

  predicate Opens(p: Payload, c: Id) {
    p.CommitmentOpened? && p.commitmentId == c
  }

  predicate Resolves(p: Payload, c: Id) {
    p.CommitmentResolved? && p.commitmentId == c
  }

  ghost predicate Opened(log: seq<Draft>, c: Id) {
    exists i :: 0 <= i < |log| && Opens(log[i].payload, c)
  }

  ghost predicate Resolved(log: seq<Draft>, c: Id) {
    exists i :: 0 <= i < |log| && Resolves(log[i].payload, c)
  }

  ghost predicate ResolutionTold(log: seq<Draft>, c: Id, resolution: Option<Resolution>) {
    if !Resolved(log, c) then resolution == None
    else exists i: nat :: i < |log| && Resolves(log[i].payload, c)
           && resolution == Some(Resolution(log[i].payload.resolution, i + 1))
  }

  ghost predicate CommitmentTold(log: seq<Draft>, commitments: map<Id, Commitment>, c: Id) {
    && (c in commitments <==> Opened(log, c))
    && (c in commitments ==> OpenedAs(log, c, commitments[c]) && ResolutionTold(log, c, commitments[c].resolution))
  }

  ghost predicate OpenedAs(log: seq<Draft>, c: Id, commitment: Commitment) {
    exists i: nat :: i < |log| && Opens(log[i].payload, c) && commitment.goalId == log[i].payload.goalId
      && commitment.description == log[i].payload.description && commitment.openedSequence == i + 1
  }

  // Checkpoints

  predicate Records(p: Payload, g: Id) {
    p.FlowCheckpointRecorded? && p.checkpoint.goalId == g
  }

  ghost predicate LastCheckpoint(log: seq<Draft>, g: Id, i: nat) {
    i < |log| && Records(log[i].payload, g) && forall j :: i < j < |log| ==> !Records(log[j].payload, g)
  }

  ghost predicate CheckpointTold(log: seq<Draft>, checkpoints: map<Id, CheckpointRecord>, g: Id) {
    && (g in checkpoints <==> exists i :: 0 <= i < |log| && Records(log[i].payload, g))
    && (g in checkpoints ==>
          exists i: nat :: LastCheckpoint(log, g, i) &&
            checkpoints[g] == CheckpointRecord(log[i].payload.checkpoint, i + 1))
  }

  // Workers and their results

  predicate Spawns(p: Payload, w: Id) {
    p.WorkerSpawned? && p.workerId == w
  }

  predicate Delivers(p: Payload, deliveryId: Id) {
    p.WorkerResultDelivered? && p.delivery.deliveryId == deliveryId
  }

  ghost predicate Spawned(log: seq<Draft>, w: Id) {
    exists i :: 0 <= i < |log| && Spawns(log[i].payload, w)
  }

  ghost predicate SpawnedFor(log: seq<Draft>, w: Id, g: Id) {
    exists i :: 0 <= i < |log| && Spawns(log[i].payload, w) && log[i].payload.goalId == g
  }

  /** What an event makes of a worker that is running when it comes; None when it leaves the worker running. */
  ghost function StopsAs(log: seq<Draft>, p: Payload, w: Id): Option<WorkerStatus>
    decreases |log|, 2
  {
    if !RunningIn(log, w) then None
    else match p
      case WorkerCancelled(workerId, _) => if workerId == w then Some(Cancelled) else None
      case WorkerFinished(workerId, status, _, _) => if workerId == w then Some(status) else None
      case WorkerResultDelivered(d) =>
        if d.workerId != w then None
        else (match Outcome(log, d) case Accepted => Some(Completed) case Rejected => Some(Superseded) case _ => None)
      case _ => None
  }

  /** Spawned, and stopped by no event since. */
  ghost predicate RunningIn(log: seq<Draft>, w: Id)
    decreases |log|, 0
  {
    exists i :: 0 <= i < |log| && Spawns(log[i].payload, w)
      && forall j :: i < j < |log| ==> StopsAs(log[..j], log[j].payload, w) == None
  }

  predicate Settles(o: DeliveryStatus) {
    o == Accepted || o == Rejected
  }

  /** An earlier event settled this delivery: accepted or rejected, not deferred. */
  ghost predicate SettledIn(log: seq<Draft>, deliveryId: Id)
    decreases |log|, 0
  {
    exists j :: 0 <= j < |log| && Delivers(log[j].payload, deliveryId)
      && Settles(Outcome(log[..j], log[j].payload.delivery))
  }

  /** The delivery repeats the contract its worker was spawned under, and nothing it rests on has changed. */
  ghost predicate ContractHolds(log: seq<Draft>, d: Delivery) {
    exists i :: 0 <= i < |log| && Spawns(log[i].payload, d.workerId)
      && d.policyEpoch == log[i].payload.policyEpoch == Epochs(log)
      && (forall x :: x in d.dependencies <==> x in log[i].payload.dependencies)
      && forall x <- log[i].payload.dependencies :: RevisionIn(log, x)
  }

  /** What becomes of a delivery that arrives after the log. */
  ghost function Outcome(log: seq<Draft>, d: Delivery): DeliveryStatus
    decreases |log|, 1
  {
    if SettledIn(log, d.deliveryId) then Duplicate
    else if !RunningIn(log, d.workerId) || !SpawnedFor(log, d.workerId, d.goalId) then Rejected
    else if PausedIn(log, d.goalId) then Deferred
    else if ActiveIn(log, d.goalId) && ContractHolds(log, d) then Accepted
    else Rejected
  }

  ghost predicate SpawnedAs(log: seq<Draft>, w: Id, worker: Worker) {
    exists i: nat :: i < |log| && Spawns(log[i].payload, w) && worker.goalId == log[i].payload.goalId
      && worker.purpose == log[i].payload.purpose && worker.policyEpoch == log[i].payload.policyEpoch
      && worker.dependencies == log[i].payload.dependencies && worker.spawnedSequence == i + 1
  }

  ghost predicate StoppedAs(log: seq<Draft>, w: Id, status: WorkerStatus) {
    exists j :: 0 <= j < |log| && StopsAs(log[..j], log[j].payload, w) == Some(status)
  }

  ghost predicate WorkerTold(log: seq<Draft>, workers: map<Id, Worker>, w: Id) {
    && (w in workers <==> Spawned(log, w))
    && (w in workers ==>
          && SpawnedAs(log, w, workers[w])
          && (workers[w].status.Running? <==> RunningIn(log, w))
          && (!workers[w].status.Running? ==> StoppedAs(log, w, workers[w].status)))
  }

  ghost predicate SpawnedOnce(log: seq<Draft>, w: Id) {
    forall i, j :: 0 <= i < |log| && 0 <= j < |log| && Spawns(log[i].payload, w) && Spawns(log[j].payload, w) ==> i == j
  }

  ghost predicate DecisionTold(log: seq<Draft>, decisions: map<Id, Decision>, deliveryId: Id) {
    && (deliveryId in decisions <==> exists i :: 0 <= i < |log| && Delivers(log[i].payload, deliveryId))
    && (deliveryId in decisions ==>
          && (forall i :: 0 <= i < |log| && Delivers(log[i].payload, deliveryId) ==>
                decisions[deliveryId].content == log[i].payload.delivery)
          && (decisions[deliveryId].status.Deferred? <==> !SettledIn(log, deliveryId)))
  }

  /** One record for each delivery event, in order. */
  ghost function RecordsIn(log: seq<Draft>): seq<DeliveryRecord> {
    if log == [] then []
    else
      var n := |log| - 1;
      RecordsIn(log[..n]) +
      if !log[n].payload.WorkerResultDelivered? then []
      else
        var d, outcome := log[n].payload.delivery, Outcome(log[..n], log[n].payload.delivery);
        [DeliveryRecord(d.deliveryId, d.workerId, log[n].eventId, outcome,
                        if outcome == Accepted then Some(n + 1) else None, d)]
  }

  /** The facts of the accepted deliveries, in order. */
  ghost function FactsIn(log: seq<Draft>): seq<AcceptedFact> {
    if log == [] then []
    else
      var n := |log| - 1;
      FactsIn(log[..n]) +
      if log[n].payload.WorkerResultDelivered? && Outcome(log[..n], log[n].payload.delivery) == Accepted
      then FactsOf(log[n].payload.delivery, log[n].payload.delivery.facts, n + 1) else []
  }

  /** The advisories recorded and those of the accepted deliveries, in order. */
  ghost function AdvisoriesIn(log: seq<Draft>): seq<Advisory> {
    if log == [] then []
    else
      var n, p := |log| - 1, log[|log| - 1].payload;
      AdvisoriesIn(log[..n]) +
      if p.AdvisoryRecorded? then [Advisory(p.episodeId, p.summary, FromModel, n + 1)]
      else if p.WorkerResultDelivered? && Outcome(log[..n], p.delivery) == Accepted
      then AdvisoriesOf(p.delivery.advisories, n + 1) else []
  }

  // Which events a log allows

  /** The workers of a goal that are running. */
  ghost function RunningFor(log: seq<Draft>, g: Id): set<Id> {
    set i | 0 <= i < |log| && log[i].payload.WorkerSpawned? && RunningIn(log, log[i].payload.workerId)
            && SpawnedFor(log, log[i].payload.workerId, g) :: log[i].payload.workerId
  }

  predicate Finished(c: Checkpoint) {
    c.status.FlowCompleted? || c.status.FlowFailed?
  }

  /** A checkpoint of a running flow moves it on under the same runtime. */
  predicate MovesOn(before: Checkpoint, c: Checkpoint) {
    !Finished(before) && c.runtimeDigest == before.runtimeDigest && c.flowRevision > before.flowRevision
    && c.capabilityEpoch >= before.capabilityEpoch
  }

  ghost predicate Legal(log: seq<Draft>, p: Payload) {
    match p
    case FactAsserted(key, _, _) => !Asserted(log, key)
    case FactCorrected(key, _, expected, revision, _) =>
      Asserted(log, key) && expected == 1 + Corrections(log, key) && revision == expected + 1
    case GoalActivated(g, _) => !Activated(log, g)
    case GoalCompleted(g) => ActiveIn(log, g)
    case GoalSuspended(g, _) => ActiveIn(log, g)
    case GoalResumed(g) => PausedIn(log, g) && forall h :: !ActiveIn(log, h)
    case CommitmentOpened(c, g, _) => !Opened(log, c) && Activated(log, g)
    case CommitmentResolved(c, _) => Opened(log, c) && !Resolved(log, c)
    case PolicyAdvanced(epoch, _) => epoch == Epochs(log) + 1
    case FlowCheckpointRecorded(c) =>
      ActiveIn(log, c.goalId)
      && forall i: nat :: LastCheckpoint(log, c.goalId, i) ==> MovesOn(log[i].payload.checkpoint, c)
    case WorkerSpawned(w, g, _, epoch, dependencies) =>
      !Spawned(log, w) && ActiveIn(log, g) && epoch == Epochs(log) && |RunningFor(log, g)| < 8
      && forall x <- dependencies :: RevisionIn(log, x)
    case WorkerCancelled(w, _) => RunningIn(log, w)
    case WorkerFinished(w, _, _, _) => RunningIn(log, w)
    case WorkerResultDelivered(d) =>
      forall i :: 0 <= i < |log| && Delivers(log[i].payload, d.deliveryId) ==> log[i].payload.delivery == d
    case AdvisoryRecorded(_, _) => true
  }

  // One more event

  lemma CorrectionsSnoc(log: seq<Draft>, d: Draft, key: Id)
    ensures Corrections(log + [d], key) == Corrections(log, key) + if Corrects(d.payload, key) then 1 else 0
  {
    assert (log + [d])[..|log|] == log;
  }

  lemma AssertedSnoc(log: seq<Draft>, d: Draft, key: Id)
    ensures Asserted(log + [d], key) <==> Asserted(log, key) || Asserts(d.payload, key)
  {
    var more := log + [d];
    assert more[|log|] == d;
    if i :| 0 <= i < |log| && Asserts(log[i].payload, key) {
      assert Asserts(more[i].payload, key);
    }
  }

  lemma LastFactSnoc(log: seq<Draft>, d: Draft, key: Id, i: nat)
    requires LastFact(log, key, i) && !Asserts(d.payload, key) && !Corrects(d.payload, key)
    ensures LastFact(log + [d], key, i)
  {
  }

  lemma EpochsSnoc(log: seq<Draft>, d: Draft)
    ensures Epochs(log + [d]) == Epochs(log) + if d.payload.PolicyAdvanced? then 1 else 0
  {
    assert (log + [d])[..|log|] == log;
  }

  lemma LastGoalSnoc(log: seq<Draft>, d: Draft, g: Id)
    ensures GoalEvent(d.payload, g) ==> forall i: nat :: LastGoal(log + [d], g, i) <==> i == |log|
    ensures !GoalEvent(d.payload, g) ==> forall i: nat :: LastGoal(log + [d], g, i) <==> LastGoal(log, g, i)
  {
    var more := log + [d];
    assert more[|log|] == d;
    forall i: nat | i < |log| ensures more[i] == log[i] {
    }
  }

  lemma DisplacedSnoc(log: seq<Draft>, d: Draft, g: Id, i: nat)
    requires i < |log|
    ensures Displaced(log + [d], g, i) <==> Displaced(log, g, i) || ActivatesOther(d.payload, g)
  {
    var more := log + [d];
    assert more[|log|] == d;
    if j :| i < j < |log| && ActivatesOther(log[j].payload, g) {
      assert more[j] == log[j];
    }
  }

  lemma NotDisplaced(log: seq<Draft>, d: Draft, g: Id)
    ensures !Displaced(log + [d], g, |log|)
  {
  }

  lemma OwnGoalSnoc(log: seq<Draft>, d: Draft, g: Id)
    requires GoalEvent(d.payload, g)
    ensures ActiveIn(log + [d], g) <==> Opening(d.payload)
    ensures PausedIn(log + [d], g) <==> d.payload.GoalSuspended?
    ensures DoneIn(log + [d], g) <==> d.payload.GoalCompleted?
  {
    LastGoalSnoc(log, d, g);
    NotDisplaced(log, d, g);
    hide LastGoal, Displaced;
    assert (log + [d])[|log|] == d;
    assert LastGoal(log + [d], g, |log|);
  }

  lemma OtherGoalSnoc(log: seq<Draft>, d: Draft, g: Id)
    requires !GoalEvent(d.payload, g)
    ensures ActiveIn(log + [d], g) <==> ActiveIn(log, g) && !ActivatesOther(d.payload, g)
    ensures PausedIn(log + [d], g) <==> PausedIn(log, g) || (ActiveIn(log, g) && ActivatesOther(d.payload, g))
    ensures DoneIn(log + [d], g) <==> DoneIn(log, g)
  {
    LastGoalSnoc(log, d, g);
    var more := log + [d];
    forall i: nat | LastGoal(log, g, i)
      ensures more[i] == log[i] && (Displaced(more, g, i) <==> Displaced(log, g, i) || ActivatesOther(d.payload, g))
    {
      DisplacedSnoc(log, d, g, i);
    }
    assert forall i: nat :: LastGoal(log, g, i) ==> i < |log|;
    hide LastGoal, Displaced;
  }

  lemma ActivatedSnoc(log: seq<Draft>, d: Draft, g: Id)
    ensures Activated(log + [d], g) <==> Activated(log, g) || Activates(d.payload, g)
  {
    var more := log + [d];
    assert more[|log|] == d;
    if i :| 0 <= i < |log| && Activates(log[i].payload, g) {
      assert Activates(more[i].payload, g);
    }
  }

  lemma SpawnedSnoc(log: seq<Draft>, d: Draft, w: Id)
    ensures Spawned(log + [d], w) <==> Spawned(log, w) || Spawns(d.payload, w)
  {
    var more := log + [d];
    assert more[|log|] == d && forall i :: 0 <= i < |log| ==> more[i] == log[i];
  }

  lemma SpawnedAsSnoc(log: seq<Draft>, d: Draft, w: Id, worker: Worker, status: WorkerStatus)
    requires SpawnedAs(log, w, worker)
    ensures SpawnedAs(log + [d], w, worker.(status := status))
  {
    var i: nat :| i < |log| && Spawns(log[i].payload, w) && worker.goalId == log[i].payload.goalId
      && worker.purpose == log[i].payload.purpose && worker.policyEpoch == log[i].payload.policyEpoch
      && worker.dependencies == log[i].payload.dependencies && worker.spawnedSequence == i + 1;
    assert (log + [d])[i] == log[i];
  }

  lemma EarlierSame(log: seq<Draft>, d: Draft, j: nat)
    requires j < |log|
    ensures (log + [d])[..j] == log[..j] && (log + [d])[j] == log[j]
  {
  }

  lemma RunningSnoc(log: seq<Draft>, d: Draft, w: Id)
    ensures RunningIn(log + [d], w) <==>
            Spawns(d.payload, w) || (RunningIn(log, w) && StopsAs(log, d.payload, w) == None)
  {
    hide StopsAs;
    var more := log + [d];
    assert more[..|log|] == log && more[|log|] == d;
    forall j: nat | j < |log| ensures more[..j] == log[..j] && more[j] == log[j] {
      EarlierSame(log, d, j);
    }
    if Spawns(d.payload, w) {
      assert Spawns(more[|log|].payload, w);
    }
    if RunningIn(log, w) && StopsAs(log, d.payload, w) == None {
      var i :| 0 <= i < |log| && Spawns(log[i].payload, w)
        && forall j :: i < j < |log| ==> StopsAs(log[..j], log[j].payload, w) == None;
      assert Spawns(more[i].payload, w);
    }
    if RunningIn(more, w) && !Spawns(d.payload, w) {
      var i :| 0 <= i < |more| && Spawns(more[i].payload, w)
        && forall j :: i < j < |more| ==> StopsAs(more[..j], more[j].payload, w) == None;
      assert Spawns(log[i].payload, w);
    }
  }

  lemma StoppedSnoc(log: seq<Draft>, d: Draft, w: Id, status: WorkerStatus)
    ensures StoppedAs(log + [d], w, status) <==> StoppedAs(log, w, status) || StopsAs(log, d.payload, w) == Some(status)
  {
    hide StopsAs;
    var more := log + [d];
    assert more[..|log|] == log && more[|log|] == d;
    forall j: nat | j < |log| ensures more[..j] == log[..j] && more[j] == log[j] {
      EarlierSame(log, d, j);
    }
    if j :| 0 <= j < |log| && StopsAs(log[..j], log[j].payload, w) == Some(status) {
      assert StopsAs(more[..j], more[j].payload, w) == Some(status);
    }
  }

  lemma SettledSnoc(log: seq<Draft>, d: Draft, deliveryId: Id)
    ensures SettledIn(log + [d], deliveryId) <==>
            || SettledIn(log, deliveryId)
            || (Delivers(d.payload, deliveryId) && Settles(Outcome(log, d.payload.delivery)))
  {
    hide Outcome;
    var more := log + [d];
    assert more[..|log|] == log && more[|log|] == d;
    forall j: nat | j < |log| ensures more[..j] == log[..j] && more[j] == log[j] {
      EarlierSame(log, d, j);
    }
    if j :| 0 <= j < |log| && Delivers(log[j].payload, deliveryId)
            && Settles(Outcome(log[..j], log[j].payload.delivery)) {
      assert Delivers(more[j].payload, deliveryId);
    }
  }
}
