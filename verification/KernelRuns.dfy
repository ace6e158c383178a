/** What every run of the conversation kernel keeps: invariants by induction over the log. */
module KernelRuns {
  import opened Common
  import opened Kernel
  import Sets

  // States along a run

  lemma {:induction false} FoldPrefix(drafts: seq<Draft>, i: nat)
    requires i <= |drafts| && Fold(drafts).Ok?
    ensures Fold(drafts[..i]).Ok?
  {
    if i < |drafts| {
      var shorter := drafts[..|drafts| - 1];
      FoldPrefix(shorter, i);
      assert shorter[..i] == drafts[..i];
    } else {
      assert drafts[..i] == drafts;
    }
  }

  /** The state after the first `i` events of a log that folds. */
  ghost function At(drafts: seq<Draft>, i: nat): State
    requires i <= |drafts| && Fold(drafts).Ok?
  {
    FoldPrefix(drafts, i);
    Fold(drafts[..i]).value
  }

  lemma AtStep(drafts: seq<Draft>, i: nat)
    requires i < |drafts| && Fold(drafts).Ok?
    ensures Apply(At(drafts, i), i + 1, drafts[i]) == Ok(At(drafts, i + 1))
  {
    FoldPrefix(drafts, i);
    FoldPrefix(drafts, i + 1);
    var longer := drafts[..i + 1];
    assert longer[..i] == drafts[..i] && longer[i] == drafts[i];
  }

  lemma AtEnd(drafts: seq<Draft>)
    requires Fold(drafts).Ok?
    ensures At(drafts, |drafts|) == Fold(drafts).value
    ensures At(drafts, 0) == EmptyState
  {
    assert drafts[..|drafts|] == drafts;
  }

  // One step, field by field

  ghost predicate TouchesFacts(p: Payload) { p.FactAsserted? || p.FactCorrected? }

  ghost predicate TouchesGoals(p: Payload) {
    p.GoalActivated? || p.GoalCompleted? || p.GoalSuspended? || p.GoalResumed?
  }

  ghost predicate TouchesWorkers(p: Payload) {
    p.WorkerSpawned? || p.WorkerCancelled? || p.WorkerFinished? || p.WorkerResultDelivered?
  }

  /** Which parts of the state an event kind leaves alone. */
  ghost predicate Frame(s: State, p: Payload, t: State) {
    && (!TouchesFacts(p) ==> t.facts == s.facts)
    && (!p.PolicyAdvanced? ==> t.policy == s.policy)
    && (!TouchesGoals(p) ==> t.goals == s.goals && t.currentGoalId == s.currentGoalId)
    && (!TouchesWorkers(p) ==> t.workers == s.workers)
    && (!p.WorkerResultDelivered? ==>
        t.deliveries == s.deliveries && t.decisions == s.decisions && t.workerFacts == s.workerFacts)
  }

  lemma KnowledgeFrame(s: State, n: nat, d: Draft, t: State)
    requires Apply(s, n, d) == Ok(t) && (TouchesFacts(d.payload) || TouchesGoals(d.payload))
    ensures Frame(s, d.payload, t)
  {
    hide ApplyFact, ApplyGoal, ApplyCommitment, ApplyPolicy, ApplyCheckpoint, ApplySpawn, ApplyWorkerEnd, ApplyDelivery;
    if TouchesFacts(d.payload) {
      assert ApplyFact(s, n, d.payload) == Ok(t);
    } else {
      assert ApplyGoal(s, n, d.payload) == Ok(t);
    }
  }

  lemma ControlFrame(s: State, n: nat, d: Draft, t: State)
    requires Apply(s, n, d) == Ok(t)
    requires !TouchesFacts(d.payload) && !TouchesGoals(d.payload) && !TouchesWorkers(d.payload)
    ensures Frame(s, d.payload, t)
  {
    hide ApplyFact, ApplyGoal, ApplyCommitment, ApplyCheckpoint, ApplySpawn, ApplyWorkerEnd, ApplyDelivery;
    var p := d.payload;
    if p.CommitmentOpened? || p.CommitmentResolved? {
      assert ApplyCommitment(s, n, p) == Ok(t);
    } else if p.FlowCheckpointRecorded? {
      assert ApplyCheckpoint(s, n, p.checkpoint) == Ok(t);
    }
  }

  lemma WorkerFrame(s: State, n: nat, d: Draft, t: State)
    requires Apply(s, n, d) == Ok(t) && TouchesWorkers(d.payload)
    ensures Frame(s, d.payload, t)
  {
    hide ApplyFact, ApplyGoal, ApplyCommitment, ApplyCheckpoint, ApplySpawn, ApplyWorkerEnd, ApplyDelivery;
    var p := d.payload;
    if p.WorkerSpawned? {
      assert ApplySpawn(s, n, p) == Ok(t);
    } else if p.WorkerResultDelivered? {
      assert ApplyDelivery(s, n, d.eventId, p.delivery) == Ok(t);
    }
  }

  lemma StepFrame(s: State, n: nat, d: Draft, t: State)
    requires Apply(s, n, d) == Ok(t)
    ensures Frame(s, d.payload, t)
  {
    hide Apply, Frame;
    if TouchesWorkers(d.payload) {
      WorkerFrame(s, n, d, t);
    } else if TouchesFacts(d.payload) || TouchesGoals(d.payload) {
      KnowledgeFrame(s, n, d, t);
    } else {
      ControlFrame(s, n, d, t);
    }
  }

  // Monotonicity of one step and of a run

  ghost predicate SameContract(a: Worker, b: Worker) {
    && a.goalId == b.goalId && a.purpose == b.purpose && a.policyEpoch == b.policyEpoch
    && a.dependencies == b.dependencies && a.spawnedSequence == b.spawnedSequence
  }

  ghost predicate FactsAdvance(s: State, t: State) {
    forall k :: k in s.facts ==> k in t.facts && s.facts[k].revision <= t.facts[k].revision
  }

  ghost predicate WorkersAdvance(s: State, t: State) {
    forall w :: w in s.workers ==>
      && w in t.workers && SameContract(s.workers[w], t.workers[w])
      && (!s.workers[w].status.Running? ==> t.workers[w] == s.workers[w])
  }

  /** Epochs and revisions never go back, and a worker that stopped running stays as it is. */
  ghost predicate Advances(s: State, t: State) {
    s.policy.epoch <= t.policy.epoch && FactsAdvance(s, t) && WorkersAdvance(s, t)
  }

  /** Whether an event can make a result that depends on `key` stale. */
  ghost predicate Invalidates(p: Payload, key: Id) {
    p.FactCorrected? && p.key == key
  }

  /** Revisions move by one, and only on a correction of that fact. */
  ghost predicate RevisionsMove(s: State, p: Payload, t: State) {
    forall k :: k in s.facts ==>
      k in t.facts && t.facts[k].revision == s.facts[k].revision + if Invalidates(p, k) then 1 else 0
  }

  lemma FactStep(s: State, n: nat, p: Payload, t: State)
    requires TouchesFacts(p) && ApplyFact(s, n, p) == Ok(t)
    ensures RevisionsMove(s, p, t)
  {
  }

  lemma SpawnStep(s: State, n: nat, p: Payload, t: State)
    requires p.WorkerSpawned? && ApplySpawn(s, n, p) == Ok(t)
    ensures WorkersAdvance(s, t)
  {
  }

  /** A decision changes at most the status of its own worker, and only from `running`. */
  lemma DecideWorkers(s: State, n: nat, eventId: Id, d: Delivery)
    ensures var t := Decide(s, n, eventId, d);
            t.workers == s.workers ||
            (d.workerId in s.workers && s.workers[d.workerId].status.Running? && d.workerId in t.workers &&
             t.workers == s.workers[d.workerId := s.workers[d.workerId].(status := t.workers[d.workerId].status)])
  {
    hide DependenciesMatch, FirstStale, FactsOf, AdvisoriesOf;
  }

  lemma DeliveryStep(s: State, n: nat, eventId: Id, d: Delivery, t: State)
    requires ApplyDelivery(s, n, eventId, d) == Ok(t)
    ensures WorkersAdvance(s, t)
    ensures forall w :: w in t.workers ==> w in s.workers
  {
    hide Decide;
    DecideWorkers(s, n, eventId, d);
  }

  lemma WorkerEndStep(s: State, workerId: Id, status: WorkerStatus, t: State)
    requires ApplyWorkerEnd(s, workerId, status) == Ok(t)
    ensures WorkersAdvance(s, t)
  {
  }

  lemma WorkerStep(s: State, n: nat, d: Draft, t: State)
    requires Apply(s, n, d) == Ok(t) && TouchesWorkers(d.payload)
    ensures WorkersAdvance(s, t)
  {
    hide ApplyFact, ApplyGoal, ApplyCommitment, ApplyCheckpoint, ApplySpawn, ApplyWorkerEnd, ApplyDelivery;
    hide WorkersAdvance;
    match d.payload
    case WorkerSpawned(_, _, _, _, _) => SpawnStep(s, n, d.payload, t);
    case WorkerCancelled(workerId, _) => WorkerEndStep(s, workerId, Cancelled, t);
    case WorkerFinished(workerId, status, _, _) => WorkerEndStep(s, workerId, status, t);
    case WorkerResultDelivered(delivery) => DeliveryStep(s, n, d.eventId, delivery, t);
  }

  lemma StepAdvances(s: State, n: nat, d: Draft, t: State)
    requires Apply(s, n, d) == Ok(t)
    ensures Advances(s, t)
    ensures t.policy.epoch == s.policy.epoch + if d.payload.PolicyAdvanced? then 1 else 0
    ensures RevisionsMove(s, d.payload, t)
  {
    hide ApplyFact, ApplySpawn, ApplyDelivery;
    StepFrame(s, n, d, t);
    if TouchesFacts(d.payload) {
      FactStep(s, n, d.payload, t);
    }
    if TouchesWorkers(d.payload) {
      WorkerStep(s, n, d, t);
    }
  }

  lemma {:induction false} RunAdvances(drafts: seq<Draft>, i: nat, j: nat)
    requires i <= j <= |drafts| && Fold(drafts).Ok?
    ensures Advances(At(drafts, i), At(drafts, j))
    decreases j - i
  {
    hide Apply;
    if i < j {
      RunAdvances(drafts, i, j - 1);
      AtStep(drafts, j - 1);
      StepAdvances(At(drafts, j - 1), j, drafts[j - 1], At(drafts, j));
    }
  }

  // Goals

  /** The current goal is active and no other goal is. */
  ghost predicate OneActiveGoal(s: State) {
    && (s.currentGoalId.Some? ==> s.currentGoalId.value in s.goals)
    && (forall g :: g in s.goals ==> (s.goals[g].status.GoalActive? <==> s.currentGoalId == Some(g)))
  }

  lemma GoalStep(s: State, n: nat, p: Payload, t: State)
    requires TouchesGoals(p) && ApplyGoal(s, n, p) == Ok(t) && OneActiveGoal(s)
    ensures OneActiveGoal(t)
  {
  }

  lemma StepKeepsOneActiveGoal(s: State, n: nat, d: Draft, t: State)
    requires Apply(s, n, d) == Ok(t) && OneActiveGoal(s)
    ensures OneActiveGoal(t)
  {
    hide ApplyGoal, ApplyDelivery;
    StepFrame(s, n, d, t);
    if TouchesGoals(d.payload) {
      GoalStep(s, n, d.payload, t);
    }
  }

  // Active workers

  ghost predicate WorkersBounded(s: State) {
    forall g :: |RunningWorkers(s, g)| <= MAX_ACTIVE_WORKERS_PER_GOAL
  }

  lemma RunningAfterSpawn(s: State, t: State, id: Id, w: Worker, g: Id)
    requires t.workers == s.workers[id := w]
    ensures RunningWorkers(t, g) <= RunningWorkers(s, g) + if w.goalId == g then {id} else {}
  {
  }

  lemma OneMoreRunning(s: State, t: State, id: Id, w: Worker)
    requires WorkersBounded(s) && t.workers == s.workers[id := w]
    requires |RunningWorkers(s, w.goalId)| < MAX_ACTIVE_WORKERS_PER_GOAL
    ensures WorkersBounded(t)
  {
    hide RunningWorkers;
    forall g ensures |RunningWorkers(t, g)| <= MAX_ACTIVE_WORKERS_PER_GOAL {
      RunningAfterSpawn(s, t, id, w, g);
      Sets.SubsetSize(RunningWorkers(t, g), RunningWorkers(s, g) + if w.goalId == g then {id} else {});
    }
  }

  lemma SpawnKeepsWorkersBounded(s: State, n: nat, p: Payload, t: State)
    requires p.WorkerSpawned? && ApplySpawn(s, n, p) == Ok(t) && WorkersBounded(s)
    ensures WorkersBounded(t)
  {
    hide FirstStale, WorkersBounded, RunningWorkers;
    OneMoreRunning(s, t, p.workerId, t.workers[p.workerId]);
  }

  /** Without a spawn, no worker starts running. */
  lemma NoNewWorkers(s: State, t: State)
    requires WorkersAdvance(s, t) && WorkersBounded(s)
    requires forall w :: w in t.workers ==> w in s.workers
    ensures WorkersBounded(t)
  {
    forall g ensures |RunningWorkers(t, g)| <= MAX_ACTIVE_WORKERS_PER_GOAL {
      assert RunningWorkers(t, g) <= RunningWorkers(s, g);
      Sets.SubsetSize(RunningWorkers(t, g), RunningWorkers(s, g));
    }
  }

  lemma SpawnApplied(s: State, n: nat, d: Draft, t: State)
    requires Apply(s, n, d) == Ok(t) && d.payload.WorkerSpawned?
    ensures ApplySpawn(s, n, d.payload) == Ok(t)
  {
    hide ApplySpawn;
  }

  lemma NoNewWorker(s: State, n: nat, d: Draft, t: State)
    requires Apply(s, n, d) == Ok(t) && !d.payload.WorkerSpawned?
    ensures forall w :: w in t.workers ==> w in s.workers
  {
    hide ApplyFact, ApplyGoal, ApplyCommitment, ApplyPolicy, ApplyCheckpoint, ApplySpawn, ApplyDelivery;
    if d.payload.WorkerResultDelivered? {
      DeliveryStep(s, n, d.eventId, d.payload.delivery, t);
    } else if !TouchesWorkers(d.payload) {
      hide Apply;
      StepFrame(s, n, d, t);
    }
  }

  lemma StepKeepsWorkersBounded(s: State, n: nat, d: Draft, t: State)
    requires Apply(s, n, d) == Ok(t) && WorkersBounded(s)
    ensures WorkersBounded(t)
  {
    hide Apply, ApplySpawn, WorkersBounded;
    if d.payload.WorkerSpawned? {
      SpawnApplied(s, n, d, t);
      SpawnKeepsWorkersBounded(s, n, d.payload, t);
    } else {
      StepAdvances(s, n, d, t);
      NoNewWorker(s, n, d, t);
      NoNewWorkers(s, t);
    }
  }

  /** In every reachable state at most one goal is active and each goal has at most eight running workers. */
  lemma {:induction false} ReachableShape(drafts: seq<Draft>)
    requires Fold(drafts).Ok?
    ensures OneActiveGoal(Fold(drafts).value) && WorkersBounded(Fold(drafts).value)
  {
    hide Apply;
    if drafts == [] {
      forall g ensures |RunningWorkers(EmptyState, g)| == 0 {
        assert RunningWorkers(EmptyState, g) == {};
      }
    } else {
      var n := |drafts|;
      var s := Fold(drafts[..n - 1]).value;
      ReachableShape(drafts[..n - 1]);
      StepKeepsOneActiveGoal(s, n, drafts[n - 1], Fold(drafts).value);
      StepKeepsWorkersBounded(s, n, drafts[n - 1], Fold(drafts).value);
    }
  }

  // Where workers and their results come from

  /** A worker was spawned by the event it names, against the facts and policy of that moment. */
  ghost predicate SpawnedBy(drafts: seq<Draft>, w: Id, worker: Worker)
    requires Fold(drafts).Ok?
  {
    var sp := worker.spawnedSequence;
    && 1 <= sp <= |drafts|
    && drafts[sp - 1].payload ==
       WorkerSpawned(w, worker.goalId, worker.purpose, worker.policyEpoch, worker.dependencies)
    && At(drafts, sp - 1).policy.epoch == worker.policyEpoch
    && forall i :: 0 <= i < |worker.dependencies| ==> RevisionIs(At(drafts, sp - 1), worker.dependencies[i])
  }

  /** An accepted fact repeats the contract of its worker and was delivered by the event it names. */
  ghost predicate DeliveredBy(drafts: seq<Draft>, s: State, f: AcceptedFact) {
    && f.workerId in s.workers
    && var worker := s.workers[f.workerId];
    && f.goalId == worker.goalId && f.policyEpoch == worker.policyEpoch
    && DependenciesMatch(f.dependencies, worker.dependencies)
    && 1 <= f.acceptedSequence <= |drafts|
    && var p := drafts[f.acceptedSequence - 1].payload;
    && p.WorkerResultDelivered? && p.delivery.deliveryId == f.deliveryId && f.fact in p.delivery.facts
    && p.delivery.dependencies == f.dependencies
  }

  lemma AtPrefix(drafts: seq<Draft>, i: nat)
    requires drafts != [] && i < |drafts| && Fold(drafts).Ok? && Fold(drafts[..|drafts| - 1]).Ok?
    ensures At(drafts, i) == At(drafts[..|drafts| - 1], i)
  {
    hide Fold;
    assert drafts[..|drafts| - 1][..i] == drafts[..i];
  }

  lemma SpawnedByExtends(drafts: seq<Draft>, w: Id, worker: Worker, other: Worker)
    requires drafts != [] && Fold(drafts).Ok?
    requires Fold(drafts[..|drafts| - 1]).Ok? && SpawnedBy(drafts[..|drafts| - 1], w, worker)
    requires SameContract(worker, other)
    ensures SpawnedBy(drafts, w, other)
  {
    hide Fold, At, RevisionIs;
    AtPrefix(drafts, worker.spawnedSequence - 1);
  }

  lemma NewWorker(s: State, n: nat, d: Draft, t: State, w: Id)
    requires Apply(s, n, d) == Ok(t) && w in t.workers && w !in s.workers
    ensures d.payload.WorkerSpawned? && ApplySpawn(s, n, d.payload) == Ok(t) && w == d.payload.workerId
  {
    hide Apply, FirstStale, RunningWorkers;
    if d.payload.WorkerSpawned? {
      SpawnApplied(s, n, d, t);
    } else {
      NoNewWorker(s, n, d, t);
    }
  }

  lemma {:induction false} WorkersSpawned(drafts: seq<Draft>, w: Id)
    requires Fold(drafts).Ok? && w in Fold(drafts).value.workers
    ensures SpawnedBy(drafts, w, Fold(drafts).value.workers[w])
  {
    hide Apply;
    if drafts != [] {
      var n := |drafts|;
      FoldPrefix(drafts, n - 1);
      var s, t := Fold(drafts[..n - 1]).value, Fold(drafts).value;
      if w in s.workers {
        StepAdvances(s, n, drafts[n - 1], t);
        WorkersSpawned(drafts[..n - 1], w);
        SpawnedByExtends(drafts, w, s.workers[w], t.workers[w]);
      } else {
        NewWorker(s, n, drafts[n - 1], t, w);
        assert At(drafts, n - 1) == s;
      }
    }
  }

  lemma NewFact(s: State, n: nat, eventId: Id, d: Delivery, t: State, f: AcceptedFact)
    requires ApplyDelivery(s, n, eventId, d) == Ok(t)
    requires f in t.workerFacts && f !in s.workerFacts
    ensures Admission(s, d).Accepted? && f in FactsOf(d, d.facts, n)
    ensures d.workerId in s.workers && d.workerId in t.workers
    ensures SameContract(s.workers[d.workerId], t.workers[d.workerId])
  {
  }

  lemma AdmittedContract(s: State, d: Delivery)
    requires Admission(s, d).Accepted?
    ensures d.workerId in s.workers
    ensures var worker := s.workers[d.workerId];
            && worker.status.Running? && d.goalId == worker.goalId && d.policyEpoch == worker.policyEpoch
            && DependenciesMatch(d.dependencies, worker.dependencies)
  {
  }

  lemma AcceptedHere(drafts: seq<Draft>, s: State, t: State, f: AcceptedFact)
    requires drafts != [] && Apply(s, |drafts|, drafts[|drafts| - 1]) == Ok(t)
    requires f in t.workerFacts && f !in s.workerFacts
    ensures DeliveredBy(drafts, t, f)
  {
    var n, last := |drafts|, drafts[|drafts| - 1];
    StepFrame(s, n, last, t);
    var d := last.payload.delivery;
    NewFact(s, n, last.eventId, d, t, f);
    AdmittedContract(s, d);
  }

  lemma {:induction false} FactsDelivered(drafts: seq<Draft>, f: AcceptedFact)
    requires Fold(drafts).Ok? && f in Fold(drafts).value.workerFacts
    ensures DeliveredBy(drafts, Fold(drafts).value, f)
  {
    hide Apply;
    if drafts != [] {
      var n := |drafts|;
      FoldPrefix(drafts, n - 1);
      var s, t := Fold(drafts[..n - 1]).value, Fold(drafts).value;
      StepAdvances(s, n, drafts[n - 1], t);
      if f in s.workerFacts {
        FactsDelivered(drafts[..n - 1], f);
        assert drafts[f.acceptedSequence - 1] == drafts[..n - 1][f.acceptedSequence - 1];
      } else {
        AcceptedHere(drafts, s, t, f);
      }
    }
  }

  // No stale worker fact

  /** The filter that decides whether an accepted worker fact may still be shown. */
  predicate RemainsCurrent(s: State, f: AcceptedFact) {
    && s.currentGoalId == Some(f.goalId)
    && f.policyEpoch == s.policy.epoch
    && forall i :: 0 <= i < |f.dependencies| ==> RevisionIs(s, f.dependencies[i])
  }

  ghost predicate DependsOn(dependencies: seq<Dependency>, key: Id) {
    exists i :: 0 <= i < |dependencies| && dependencies[i].key == key
  }

  /** From position `from` on, no policy advance and no correction of a dependency. */
  ghost predicate Undisturbed(drafts: seq<Draft>, from: nat, dependencies: seq<Dependency>) {
    forall m :: from <= m < |drafts| ==>
      && !drafts[m].payload.PolicyAdvanced?
      && (drafts[m].payload.FactCorrected? ==> !DependsOn(dependencies, drafts[m].payload.key))
  }

  lemma {:induction false} EpochUnchanged(drafts: seq<Draft>, i: nat, j: nat)
    requires i <= j <= |drafts| && Fold(drafts).Ok?
    ensures At(drafts, i).policy.epoch == At(drafts, j).policy.epoch <==>
            forall m :: i <= m < j ==> !drafts[m].payload.PolicyAdvanced?
    decreases j - i
  {
    hide Apply;
    if i < j {
      EpochUnchanged(drafts, i, j - 1);
      RunAdvances(drafts, i, j - 1);
      AtStep(drafts, j - 1);
      StepAdvances(At(drafts, j - 1), j, drafts[j - 1], At(drafts, j));
    }
  }

  lemma {:induction false} RevisionUnchanged(drafts: seq<Draft>, i: nat, j: nat, key: Id)
    requires i <= j <= |drafts| && Fold(drafts).Ok? && key in At(drafts, i).facts
    ensures key in At(drafts, j).facts
    ensures At(drafts, i).facts[key].revision == At(drafts, j).facts[key].revision <==>
            forall m :: i <= m < j ==> !Invalidates(drafts[m].payload, key)
    decreases j - i
  {
    hide Apply;
    if i < j {
      RevisionUnchanged(drafts, i, j - 1, key);
      RunAdvances(drafts, i, j - 1);
      AtStep(drafts, j - 1);
      StepAdvances(At(drafts, j - 1), j, drafts[j - 1], At(drafts, j));
    }
  }

  ghost predicate AllWellFormed(drafts: seq<Draft>) {
    forall i :: 0 <= i < |drafts| ==> WellFormedPayload(drafts[i].payload)
  }

  lemma DependencyCurrent(drafts: seq<Draft>, sp: nat, d: Dependency)
    requires 1 <= sp <= |drafts| && Fold(drafts).Ok? && drafts[sp - 1].payload.WorkerSpawned?
    requires RevisionIs(At(drafts, sp - 1), d)
    ensures RevisionIs(Fold(drafts).value, d) <==>
            forall m :: sp <= m < |drafts| ==> !Invalidates(drafts[m].payload, d.key)
  {
    hide Fold, At;
    AtEnd(drafts);
    RevisionUnchanged(drafts, sp - 1, |drafts|, d.key);
    assert !Invalidates(drafts[sp - 1].payload, d.key);
  }

  lemma DependenciesCurrent(drafts: seq<Draft>, sp: nat, dependencies: seq<Dependency>)
    requires 1 <= sp <= |drafts| && Fold(drafts).Ok? && drafts[sp - 1].payload.WorkerSpawned?
    requires forall i :: 0 <= i < |dependencies| ==> RevisionIs(At(drafts, sp - 1), dependencies[i])
    ensures (forall i :: 0 <= i < |dependencies| ==> RevisionIs(Fold(drafts).value, dependencies[i])) <==>
            (forall m :: sp <= m < |drafts| && drafts[m].payload.FactCorrected? ==>
               !DependsOn(dependencies, drafts[m].payload.key))
  {
    hide Fold, At, RevisionIs;
    var n, s := |drafts|, Fold(drafts).value;
    forall i | 0 <= i < |dependencies|
      ensures RevisionIs(s, dependencies[i]) <==>
              forall m :: sp <= m < n ==> !Invalidates(drafts[m].payload, dependencies[i].key)
    {
      DependencyCurrent(drafts, sp, dependencies[i]);
    }
    forall m | sp <= m < n
      ensures (drafts[m].payload.FactCorrected? && DependsOn(dependencies, drafts[m].payload.key)) <==>
              exists i :: 0 <= i < |dependencies| && Invalidates(drafts[m].payload, dependencies[i].key)
    {
    }
  }

  /** Two declarations that match name the same dependencies. */
  lemma MatchedDependencies(s: State, a: seq<Dependency>, b: seq<Dependency>)
    requires DistinctKeys(a) && DistinctKeys(b) && DependenciesMatch(a, b)
    ensures (forall i :: 0 <= i < |a| ==> RevisionIs(s, a[i])) <==> (forall i :: 0 <= i < |b| ==> RevisionIs(s, b[i]))
  {
    MatchIsSetEquality(a, b);
    forall i | 0 <= i < |a| ensures a[i] in b {
    }
    forall i | 0 <= i < |b| ensures b[i] in a {
    }
  }

  /**
   * An accepted worker fact passes the projection filter exactly when its goal is current and,
   * since the event that spawned its worker, no policy advance and no correction of any of the
   * worker's dependencies has been logged.
   */
  lemma NoStaleWorkerFact(drafts: seq<Draft>, f: AcceptedFact)
    requires Fold(drafts).Ok? && AllWellFormed(drafts)
    requires f in Fold(drafts).value.workerFacts
    ensures var s := Fold(drafts).value;
            && f.workerId in s.workers
            && var worker := s.workers[f.workerId];
            && SpawnedBy(drafts, f.workerId, worker)
            && (RemainsCurrent(s, f) <==>
                s.currentGoalId == Some(f.goalId) &&
                Undisturbed(drafts, worker.spawnedSequence, worker.dependencies))
  {
    hide Apply, DependenciesMatch, RevisionIs;
    var s := Fold(drafts).value;
    FactsDelivered(drafts, f);
    var worker := s.workers[f.workerId];
    WorkersSpawned(drafts, f.workerId);
    var sp := worker.spawnedSequence;
    AtEnd(drafts);
    EpochUnchanged(drafts, sp - 1, |drafts|);
    assert WellFormedPayload(drafts[sp - 1].payload);
    assert WellFormedPayload(drafts[f.acceptedSequence - 1].payload);
    MatchedDependencies(s, f.dependencies, worker.dependencies);
    DependenciesCurrent(drafts, sp, worker.dependencies);
  }

  // Exactly-once worker results

  /** The deliveries a log carries, in order: the reference the folded state is compared with. */
  ghost function DeliveriesIn(drafts: seq<Draft>): seq<Delivery> {
    if drafts == [] then []
    else
      var p := drafts[|drafts| - 1].payload;
      DeliveriesIn(drafts[..|drafts| - 1]) + if p.WorkerResultDelivered? then [p.delivery] else []
  }

  ghost function AcceptedCount(records: seq<DeliveryRecord>, w: Id): nat {
    if records == [] then 0
    else
      var last := records[|records| - 1];
      AcceptedCount(records[..|records| - 1], w) + if last.status.Accepted? && last.workerId == w then 1 else 0
  }

  /** The facts of the accepted deliveries, in order. */
  ghost function AcceptedFacts(records: seq<DeliveryRecord>): seq<AcceptedFact> {
    if records == [] then []
    else
      var last := records[|records| - 1];
      AcceptedFacts(records[..|records| - 1]) +
      if last.status.Accepted? && last.appliedSequence.Some?
      then FactsOf(last.content, last.content.facts, last.appliedSequence.value) else []
  }

  /** Each record carries its own delivery, and every decided id is decided on that content. */
  ghost predicate Recorded(s: State) {
    forall i :: 0 <= i < |s.deliveries| ==>
      var r := s.deliveries[i];
      && r.deliveryId == r.content.deliveryId && r.workerId == r.content.workerId
      && r.deliveryId in s.decisions && s.decisions[r.deliveryId].content == r.content
      && (r.status.Accepted? ==> r.appliedSequence.Some? && s.decisions[r.deliveryId].status.Accepted?)
  }

  ghost predicate AcceptedOnce(s: State) {
    forall i, j ::
      0 <= i < j < |s.deliveries| && s.deliveries[i].status.Accepted? && s.deliveries[j].status.Accepted? ==>
      s.deliveries[i].deliveryId != s.deliveries[j].deliveryId
  }

  ghost predicate CompletedIffAccepted(s: State) {
    forall w :: AcceptedCount(s.deliveries, w) == if w in s.workers && s.workers[w].status.Completed? then 1 else 0
  }

  ghost predicate ContentsAre(records: seq<DeliveryRecord>, contents: seq<Delivery>) {
    |records| == |contents| && forall i :: 0 <= i < |records| ==> records[i].content == contents[i]
  }

  lemma LastRecord(records: seq<DeliveryRecord>, r: DeliveryRecord)
    ensures forall w :: AcceptedCount(records + [r], w) ==
              AcceptedCount(records, w) + if r.status.Accepted? && r.workerId == w then 1 else 0
    ensures AcceptedFacts(records + [r]) == AcceptedFacts(records) +
              if r.status.Accepted? && r.appliedSequence.Some?
              then FactsOf(r.content, r.content.facts, r.appliedSequence.value) else []
  {
    assert (records + [r])[..|records|] == records;
  }

  ghost predicate ExactlyOnce(s: State) {
    Recorded(s) && AcceptedOnce(s) && CompletedIffAccepted(s) && s.workerFacts == AcceptedFacts(s.deliveries)
  }

  /** A decision is new, or settles a deferred delivery of the same content. */
  ghost predicate Undecided(s: State, d: Delivery) {
    d.deliveryId in s.decisions ==>
      s.decisions[d.deliveryId].content == d && s.decisions[d.deliveryId].status.Deferred?
  }

  /** One more record with its decision. */
  ghost predicate RecordedNext(s: State, r: DeliveryRecord, t: State) {
    && r.deliveryId == r.content.deliveryId && r.workerId == r.content.workerId
    && t.deliveries == s.deliveries + [r]
    && t.decisions == s.decisions[r.deliveryId := Decision(r.content, r.status)]
  }

  lemma RecordKeeps(s: State, r: DeliveryRecord, t: State)
    requires Recorded(s) && RecordedNext(s, r, t) && Undecided(s, r.content)
    requires r.status.Accepted? ==> r.appliedSequence.Some?
    ensures Recorded(t)
  {
    forall i | 0 <= i < |s.deliveries| && s.deliveries[i].deliveryId == r.deliveryId
      ensures !s.deliveries[i].status.Accepted?
    {
      assert s.deliveries[i].deliveryId in s.decisions;
    }
  }

  lemma AcceptOnceKeeps(s: State, r: DeliveryRecord, t: State)
    requires Recorded(s) && AcceptedOnce(s) && RecordedNext(s, r, t) && Undecided(s, r.content)
    ensures AcceptedOnce(t)
  {
    forall i | 0 <= i < |s.deliveries| && s.deliveries[i].status.Accepted?
      ensures s.deliveries[i].deliveryId != r.deliveryId
    {
      assert s.decisions[s.deliveries[i].deliveryId].status.Accepted?;
    }
  }

  lemma AcceptKeepsExactlyOnce(s: State, n: nat, r: DeliveryRecord, t: State)
    requires ExactlyOnce(s) && r.status.Accepted? && r.appliedSequence == Some(n)
    requires RecordedNext(s, r, t) && Undecided(s, r.content)
    requires r.workerId in s.workers && s.workers[r.workerId].status.Running?
    requires t.workers == s.workers[r.workerId := s.workers[r.workerId].(status := Completed)]
    requires t.workerFacts == s.workerFacts + FactsOf(r.content, r.content.facts, n)
    ensures ExactlyOnce(t)
  {
    hide FactsOf, Recorded, AcceptedOnce, AcceptedCount, AcceptedFacts;
    RecordKeeps(s, r, t);
    AcceptOnceKeeps(s, r, t);
    LastRecord(s.deliveries, r);
  }

  lemma RefuseKeepsExactlyOnce(s: State, r: DeliveryRecord, t: State)
    requires ExactlyOnce(s) && !r.status.Accepted?
    requires RecordedNext(s, r, t) && Undecided(s, r.content)
    requires forall w :: (w in t.workers && t.workers[w].status.Completed?) <==>
                         (w in s.workers && s.workers[w].status.Completed?)
    requires t.workerFacts == s.workerFacts
    ensures ExactlyOnce(t)
  {
    hide FactsOf, Recorded, AcceptedOnce, AcceptedCount, AcceptedFacts;
    RecordKeeps(s, r, t);
    AcceptOnceKeeps(s, r, t);
    LastRecord(s.deliveries, r);
    assert s.workerFacts + [] == s.workerFacts;
  }

  lemma NextRecord(s: State, r: DeliveryRecord, t: State)
    requires r.deliveryId == r.content.deliveryId && r.workerId == r.content.workerId
    requires t.deliveries == s.deliveries + [r]
    requires t.decisions == s.decisions[r.deliveryId := Decision(r.content, r.status)]
    ensures RecordedNext(s, r, t)
  {
  }

  lemma DecidedRecord(s: State, n: nat, eventId: Id, d: Delivery)
    ensures var t := Decide(s, n, eventId, d);
            && |t.deliveries| == |s.deliveries| + 1
            && var r := t.deliveries[|s.deliveries|];
               RecordedNext(s, r, t) && r.content == d && r.status == Admission(s, d)
  {
    DecideRecords(s, n, eventId, d);
    hide Decide, Admission, RecordedNext;
    var t, status := Decide(s, n, eventId, d), Admission(s, d);
    var r := DeliveryRecord(d.deliveryId, d.workerId, eventId, status, if status.Accepted? then Some(n) else None, d);
    NextRecord(s, r, t);
  }

  lemma DecideRecords(s: State, n: nat, eventId: Id, d: Delivery)
    ensures var t, status := Decide(s, n, eventId, d), Admission(s, d);
            var noted := WithDecision(s, n, eventId, d, status);
            t.deliveries == noted.deliveries && t.decisions == noted.decisions
  {
    hide FactsOf, Admission, AdvisoriesOf, SetWorkerStatus, WithDecision;
  }

  lemma AcceptedEffect(s: State, n: nat, eventId: Id, d: Delivery)
    requires Admission(s, d).Accepted?
    ensures d.workerId in s.workers && s.workers[d.workerId].status.Running?
    ensures var t := Decide(s, n, eventId, d);
            && t.deliveries[|s.deliveries|].appliedSequence == Some(n)
            && t.workers == s.workers[d.workerId := s.workers[d.workerId].(status := Completed)]
            && t.workerFacts == s.workerFacts + FactsOf(d, d.facts, n)
  {
    hide FactsOf, AdvisoriesOf, DependenciesMatch, FirstStale;
  }

  lemma RefusedEffect(s: State, n: nat, eventId: Id, d: Delivery)
    requires !Admission(s, d).Accepted?
    ensures var t := Decide(s, n, eventId, d);
            && t.workerFacts == s.workerFacts
            && forall w :: (w in t.workers && t.workers[w].status.Completed?) <==>
                           (w in s.workers && s.workers[w].status.Completed?)
  {
    hide FactsOf, AdvisoriesOf, Admission;
  }

  lemma DecideKeepsExactlyOnce(s: State, n: nat, eventId: Id, d: Delivery)
    requires ExactlyOnce(s) && Undecided(s, d)
    ensures ExactlyOnce(Decide(s, n, eventId, d))
  {
    DecidedRecord(s, n, eventId, d);
    hide FactsOf, ExactlyOnce, RecordedNext, Undecided, AdvisoriesOf, Decide, Admission;
    var t := Decide(s, n, eventId, d);
    var r := t.deliveries[|s.deliveries|];
    NextIsOwn(s, r, t);
    if Admission(s, d).Accepted? {
      AcceptedEffect(s, n, eventId, d);
      AcceptKeepsExactlyOnce(s, n, r, t);
    } else {
      RefusedEffect(s, n, eventId, d);
      RefuseKeepsExactlyOnce(s, r, t);
    }
  }

  lemma NextIsOwn(s: State, r: DeliveryRecord, t: State)
    requires RecordedNext(s, r, t)
    ensures r.deliveryId == r.content.deliveryId && r.workerId == r.content.workerId
  {
  }

  lemma DuplicateKeepsExactlyOnce(s: State, r: DeliveryRecord)
    requires ExactlyOnce(s) && r.status.Duplicate?
    requires r.deliveryId == r.content.deliveryId && r.workerId == r.content.workerId
    requires r.deliveryId in s.decisions && s.decisions[r.deliveryId].content == r.content
    ensures ExactlyOnce(s.(deliveries := s.deliveries + [r]))
  {
    LastRecord(s.deliveries, r);
    hide AcceptedCount, AcceptedFacts, FactsOf;
    assert AcceptedFacts(s.deliveries) + [] == AcceptedFacts(s.deliveries);
  }

  ghost predicate SameStatus(s: State, t: State) {
    && s.deliveries == t.deliveries && s.decisions == t.decisions && s.workerFacts == t.workerFacts
    && forall w :: (w in s.workers && s.workers[w].status.Completed?) <==>
                   (w in t.workers && t.workers[w].status.Completed?)
  }

  lemma WorkerEndKeepsStatus(s: State, n: nat, d: Draft, t: State)
    requires Apply(s, n, d) == Ok(t) && WellFormedPayload(d.payload)
    requires d.payload.WorkerSpawned? || d.payload.WorkerCancelled? || d.payload.WorkerFinished?
    ensures SameStatus(s, t)
  {
    hide ApplyFact, ApplyGoal, ApplyCommitment, ApplyCheckpoint, ApplyDelivery, FirstStale, RunningWorkers;
  }

  lemma OtherStepsKeepStatus(s: State, n: nat, d: Draft, t: State)
    requires Apply(s, n, d) == Ok(t) && !d.payload.WorkerResultDelivered? && WellFormedPayload(d.payload)
    ensures SameStatus(s, t)
  {
    hide Apply;
    StepFrame(s, n, d, t);
    if TouchesWorkers(d.payload) {
      WorkerEndKeepsStatus(s, n, d, t);
    }
  }

  lemma StepKeepsExactlyOnce(s: State, n: nat, d: Draft, t: State)
    requires Apply(s, n, d) == Ok(t) && ExactlyOnce(s) && WellFormedPayload(d.payload)
    ensures ExactlyOnce(t)
  {
    hide Decide;
    if d.payload.WorkerResultDelivered? {
      var delivery := d.payload.delivery;
      if delivery.deliveryId in s.decisions && !s.decisions[delivery.deliveryId].status.Deferred? {
        DuplicateKeepsExactlyOnce(s, t.deliveries[|s.deliveries|]);
      } else {
        DecideKeepsExactlyOnce(s, n, d.eventId, delivery);
      }
    } else {
      OtherStepsKeepStatus(s, n, d, t);
      assert CompletedIffAccepted(t);
    }
  }

  lemma EmptyExactlyOnce()
    ensures ExactlyOnce(EmptyState)
  {
  }

  lemma DeliveryApplied(s: State, n: nat, d: Draft, t: State)
    requires Apply(s, n, d) == Ok(t) && d.payload.WorkerResultDelivered?
    ensures ApplyDelivery(s, n, d.eventId, d.payload.delivery) == Ok(t)
  {
    hide ApplyDelivery;
  }

  lemma NextKeepsRecords(s: State, r: DeliveryRecord, t: State)
    requires RecordedNext(s, r, t)
    ensures t.deliveries[..|s.deliveries|] == s.deliveries
  {
  }

  lemma OneMoreRecord(s: State, n: nat, d: Draft, t: State)
    requires Apply(s, n, d) == Ok(t) && d.payload.WorkerResultDelivered?
    ensures |t.deliveries| == |s.deliveries| + 1 && t.deliveries[..|s.deliveries|] == s.deliveries
    ensures t.deliveries[|s.deliveries|].content == d.payload.delivery
  {
    hide Apply, Decide, RecordedNext;
    DeliveryApplied(s, n, d, t);
    var delivery := d.payload.delivery;
    if delivery.deliveryId !in s.decisions || s.decisions[delivery.deliveryId].status.Deferred? {
      DecidedRecord(s, n, d.eventId, delivery);
      NextKeepsRecords(s, t.deliveries[|s.deliveries|], t);
    }
  }

  /**
   * In every reachable state each delivery id is applied at most once and only ever with one
   * content, a worker is completed iff exactly one of its deliveries was accepted, the accepted
   * facts are those of the accepted deliveries in order, and one record is kept per delivery event.
   */
  lemma {:induction false} ExactlyOnceResults(drafts: seq<Draft>)
    requires Fold(drafts).Ok? && AllWellFormed(drafts)
    ensures ExactlyOnce(Fold(drafts).value)
    ensures ContentsAre(Fold(drafts).value.deliveries, DeliveriesIn(drafts))
  {
    hide Apply, ExactlyOnce;
    if drafts == [] {
      EmptyExactlyOnce();
    } else {
      var n := |drafts|;
      FoldPrefix(drafts, n - 1);
      assert forall i :: 0 <= i < n - 1 ==> drafts[..n - 1][i] == drafts[i];
      ExactlyOnceResults(drafts[..n - 1]);
      var s, d, t := Fold(drafts[..n - 1]).value, drafts[n - 1], Fold(drafts).value;
      StepKeepsExactlyOnce(s, n, d, t);
      if d.payload.WorkerResultDelivered? {
        OneMoreRecord(s, n, d, t);
      } else {
        OtherStepsKeepStatus(s, n, d, t);
      }
    }
  }

  /** Two delivery events with one delivery id carry the same content. */
  lemma RedeliveryNeverChanges(drafts: seq<Draft>, i: nat, j: nat)
    requires Fold(drafts).Ok? && AllWellFormed(drafts)
    requires i < |DeliveriesIn(drafts)| && j < |DeliveriesIn(drafts)|
    requires DeliveriesIn(drafts)[i].deliveryId == DeliveriesIn(drafts)[j].deliveryId
    ensures DeliveriesIn(drafts)[i] == DeliveriesIn(drafts)[j]
  {
    ExactlyOnceResults(drafts);
    var s := Fold(drafts).value;
    assert s.deliveries[i].content == DeliveriesIn(drafts)[i] && s.deliveries[j].content == DeliveriesIn(drafts)[j];
  }

  /** A worker that has left `running` is the same at every later moment. */
  lemma StoppedWorkerStays(drafts: seq<Draft>, i: nat, j: nat, w: Id)
    requires i <= j <= |drafts| && Fold(drafts).Ok?
    requires w in At(drafts, i).workers && !At(drafts, i).workers[w].status.Running?
    ensures w in At(drafts, j).workers && At(drafts, j).workers[w] == At(drafts, i).workers[w]
  {
    RunAdvances(drafts, i, j);
  }
}
