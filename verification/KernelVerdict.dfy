/**
 * The folded state is the log's own account of it, and an event is accepted exactly when the log allows it: both by
 * one induction over the log.
 */
module KernelVerdict {
  import opened Common
  import opened Kernel
  import opened KernelRuns
  import opened KernelLog
  import opened KernelHistory
  import opened KernelOrigin
  import opened KernelWorkers

  /** Everything in the state is what the log says it is. */
  ghost predicate Told(log: seq<Draft>, s: State) {
    && ContextTold(log, s) && WorkersTold(log, s) && ResultsTold(log, s) && CorrectionsTold(log) && RestTold(log, s)
  }

  ghost predicate CorrectionsTold(log: seq<Draft>) {
    forall key :: CorrectedAfter(log, key)
  }

  ghost predicate RestTold(log: seq<Draft>, s: State) {
    && (forall c :: CommitmentTold(log, s.commitments, c) && (Resolved(log, c) ==> Opened(log, c)))
    && (forall g :: CheckpointTold(log, s.checkpoints, g))
  }

  lemma EmptyTold()
    ensures Told([], EmptyState)
  {
  }

  lemma ContextStep(log: seq<Draft>, d: Draft, s: State, t: State)
    requires ContextTold(log, s) && CorrectionsTold(log) && WellFormedPayload(d.payload)
    requires Apply(s, |log| + 1, d) == Ok(t)
    ensures ContextTold(log + [d], t) && CorrectionsTold(log + [d])
  {
    hide Apply, FactTold, GoalTold, PolicyTold, OneActiveGoal, WellFormedPayload, CorrectedAfter;
    forall key ensures FactTold(log + [d], t.facts, key) && CorrectedAfter(log + [d], key) {
      FactStepTold(log, d, s, t, key);
    }
    forall g ensures GoalTold(log + [d], t.goals, g) {
      GoalStepTold(log, d, s, t, g);
    }
    PolicyStepTold(log, d, s, t);
    StepKeepsOneActiveGoal(s, |log| + 1, d, t);
  }

  lemma WorkersStep(log: seq<Draft>, d: Draft, s: State, t: State)
    requires ContextTold(log, s) && WorkersTold(log, s) && WellFormedPayload(d.payload)
    requires Apply(s, |log| + 1, d) == Ok(t)
    ensures WorkersTold(log + [d], t)
  {
    hide Apply, ContextTold, WorkerTold, SpawnedOnce, DecisionTold, WellFormedPayload;
    forall w ensures WorkerTold(log + [d], t.workers, w) && SpawnedOnce(log + [d], w) {
      WorkerStepTold(log, d, s, t, w);
    }
    forall id ensures DecisionTold(log + [d], t.decisions, id) {
      DecisionStepTold(log, d, s, t, id);
    }
  }

  lemma RestStep(log: seq<Draft>, d: Draft, s: State, t: State)
    requires RestTold(log, s) && Apply(s, |log| + 1, d) == Ok(t)
    ensures RestTold(log + [d], t)
  {
    hide Apply, CommitmentTold, CheckpointTold, Resolved, Opened;
    forall c ensures CommitmentTold(log + [d], t.commitments, c) && (Resolved(log + [d], c) ==> Opened(log + [d], c)) {
      CommitmentStepTold(log, d, s, t, c);
    }
    forall g ensures CheckpointTold(log + [d], t.checkpoints, g) {
      CheckpointStepTold(log, d, s, t, g);
    }
  }

  lemma StepTold(log: seq<Draft>, d: Draft, s: State, t: State)
    requires Told(log, s) && WellFormedPayload(d.payload) && Apply(s, |log| + 1, d) == Ok(t)
    ensures Told(log + [d], t)
  {
    hide Apply, ContextTold, WorkersTold, ResultsTold, CorrectionsTold, RestTold, WellFormedPayload;
    ContextStep(log, d, s, t);
    WorkersStep(log, d, s, t);
    ResultsStepTold(log, d, s, t);
    RestStep(log, d, s, t);
  }

  // When an event is accepted

  lemma FactVerdict(log: seq<Draft>, s: State, n: nat, p: Payload)
    requires TouchesFacts(p) && FactTold(log, s.facts, p.key)
    ensures ApplyFact(s, n, p).Ok? <==> Legal(log, p)
  {
    hide Asserted, Corrections, LastFact;
  }

  lemma ActiveTold(log: seq<Draft>, s: State, g: Id)
    requires GoalTold(log, s.goals, g) && OneActiveGoal(s)
    ensures ActiveIn(log, g) <==> s.currentGoalId == Some(g)
    ensures ActiveIn(log, g) <==> IsActiveGoal(s, g)
  {
    hide ActiveIn, PausedIn, DoneIn, Activated, GoalFrom;
  }

  lemma NoneActive(log: seq<Draft>, s: State)
    requires (forall g :: GoalTold(log, s.goals, g)) && OneActiveGoal(s)
    ensures s.currentGoalId == None <==> forall h: Id :: !ActiveIn(log, h)
  {
    hide GoalTold, OneActiveGoal, ActiveIn, IsActiveGoal;
    forall h: Id ensures ActiveIn(log, h) <==> s.currentGoalId == Some(h) {
      ActiveTold(log, s, h);
    }
    if s.currentGoalId.Some? {
      assert ActiveIn(log, s.currentGoalId.value);
    }
  }

  lemma GoalVerdict(log: seq<Draft>, s: State, n: nat, p: Payload)
    requires TouchesGoals(p) && (forall g :: GoalTold(log, s.goals, g)) && OneActiveGoal(s)
    ensures ApplyGoal(s, n, p).Ok? <==> Legal(log, p)
  {
    assert GoalTold(log, s.goals, p.goalId);
    ActiveTold(log, s, p.goalId);
    NoneActive(log, s);
    hide ActiveIn, PausedIn, DoneIn, Activated, GoalFrom, OneActiveGoal;
  }

  lemma CommitmentVerdict(log: seq<Draft>, s: State, n: nat, p: Payload)
    requires (p.CommitmentOpened? || p.CommitmentResolved?) && CommitmentTold(log, s.commitments, p.commitmentId)
    requires p.CommitmentOpened? ==> GoalTold(log, s.goals, p.goalId)
    ensures ApplyCommitment(s, n, p).Ok? <==> Legal(log, p)
  {
    hide Opened, OpenedAs, Resolved, Activated, GoalFrom, ActiveIn, PausedIn, DoneIn;
  }

  lemma CheckpointVerdict(log: seq<Draft>, s: State, n: nat, p: Payload)
    requires p.FlowCheckpointRecorded? && CheckpointTold(log, s.checkpoints, p.checkpoint.goalId)
    requires GoalTold(log, s.goals, p.checkpoint.goalId) && OneActiveGoal(s)
    ensures ApplyCheckpoint(s, n, p.checkpoint).Ok? <==> Legal(log, p)
  {
    var g := p.checkpoint.goalId;
    ActiveTold(log, s, g);
    hide ActiveIn, GoalTold, OneActiveGoal, IsActiveGoal;
    if g in s.checkpoints {
      var i: nat :| LastCheckpoint(log, g, i) && s.checkpoints[g] == CheckpointRecord(log[i].payload.checkpoint, i + 1);
      assert forall j: nat :: LastCheckpoint(log, g, j) ==> j == i;
      hide LastCheckpoint, CheckpointTold;
    } else {
      assert forall j: nat :: !LastCheckpoint(log, g, j);
      hide LastCheckpoint, CheckpointTold;
    }
  }

  lemma RunningTold(log: seq<Draft>, s: State, g: Id)
    requires forall w :: WorkerTold(log, s.workers, w) && SpawnedOnce(log, w)
    ensures RunningFor(log, g) == RunningWorkers(s, g)
  {
    hide SpawnedOnce, SpawnedAs, StoppedAs, RunningIn, SpawnedFor;
    forall w ensures w in RunningFor(log, g) <==> w in RunningWorkers(s, g) {
      assert WorkerTold(log, s.workers, w) && SpawnedOnce(log, w);
      WorkerRuns(log, s, w);
      if w in s.workers {
        SpawnedForTold(log, w, s.workers[w], g);
      }
      if w in RunningWorkers(s, g) {
        assert Spawned(log, w);
      }
    }
  }

  lemma SpawnVerdict(log: seq<Draft>, s: State, n: nat, p: Payload)
    requires p.WorkerSpawned? && ContextTold(log, s) && WorkersTold(log, s)
    ensures ApplySpawn(s, n, p).Ok? <==> Legal(log, p)
  {
    assert GoalTold(log, s.goals, p.goalId);
    ActiveTold(log, s, p.goalId);
    CurrentTold(log, s, p.dependencies);
    RunningTold(log, s, p.goalId);
    assert WorkerTold(log, s.workers, p.workerId);
    hide ActiveIn, GoalTold, OneActiveGoal, IsActiveGoal, FactTold, FirstStale, RevisionIn, RunningFor, RunningWorkers;
    hide RunningIn, SpawnedAs, StoppedAs, WorkersTold, Epochs, Spawned, AllWellFormed;
  }

  lemma EndVerdict(log: seq<Draft>, s: State, w: Id, status: WorkerStatus)
    requires WorkerTold(log, s.workers, w)
    ensures ApplyWorkerEnd(s, w, status).Ok? <==> RunningIn(log, w)
  {
    WorkerRuns(log, s, w);
    hide RunningIn, WorkerTold;
  }

  lemma DeliveryVerdict(log: seq<Draft>, s: State, n: nat, eventId: Id, p: Payload)
    requires p.WorkerResultDelivered? && DecisionTold(log, s.decisions, p.delivery.deliveryId)
    ensures ApplyDelivery(s, n, eventId, p.delivery).Ok? <==> Legal(log, p)
  {
    hide Decide, SettledIn;
    var d := p.delivery;
    if d.deliveryId in s.decisions {
      var i :| 0 <= i < |log| && Delivers(log[i].payload, d.deliveryId);
      assert s.decisions[d.deliveryId].content == log[i].payload.delivery;
    }
  }

  /** An event is accepted exactly when the log allows it. */
  lemma EventVerdict(log: seq<Draft>, s: State, d: Draft)
    requires Told(log, s)
    ensures Apply(s, |log| + 1, d).Ok? <==> Legal(log, d.payload)
  {
    hide ApplyFact, ApplyGoal, ApplyCommitment, ApplyCheckpoint, ApplySpawn, ApplyWorkerEnd, ApplyDelivery;
    hide FactTold, GoalTold, PolicyTold, OneActiveGoal, WorkerTold, SpawnedOnce, DecisionTold, CommitmentTold;
    hide CheckpointTold, ResultsTold, CorrectionsTold, AllWellFormed, Resolved, Opened;
    var n, p := |log| + 1, d.payload;
    if TouchesFacts(p) {
      FactVerdict(log, s, n, p);
    } else if TouchesGoals(p) {
      GoalVerdict(log, s, n, p);
    } else if p.CommitmentOpened? || p.CommitmentResolved? {
      CommitmentVerdict(log, s, n, p);
    } else if p.PolicyAdvanced? {
      assert PolicyTold(log, s.policy);
      PolicyVerdict(log, s, p);
    } else if p.FlowCheckpointRecorded? {
      CheckpointVerdict(log, s, n, p);
    } else if p.WorkerSpawned? {
      SpawnVerdict(log, s, n, p);
    } else if p.WorkerCancelled? {
      EndVerdict(log, s, p.workerId, Cancelled);
    } else if p.WorkerFinished? {
      EndVerdict(log, s, p.workerId, p.status);
    } else if p.WorkerResultDelivered? {
      DeliveryVerdict(log, s, n, d.eventId, p);
    }
  }

  lemma PolicyVerdict(log: seq<Draft>, s: State, p: Payload)
    requires p.PolicyAdvanced? && PolicyTold(log, s.policy)
    ensures ApplyPolicy(s, p).Ok? <==> Legal(log, p)
  {
    hide Epochs;
  }

  /** A log folds exactly when each event is allowed by those before it, and then to the state the log tells. */
  lemma {:induction false} FoldIsHistory(log: seq<Draft>)
    requires AllWellFormed(log)
    ensures Fold(log).Ok? <==> forall i :: 0 <= i < |log| ==> Legal(log[..i], log[i].payload)
    ensures Fold(log).Ok? ==> Told(log, Fold(log).value)
    decreases |log|
  {
    hide Apply, Legal, Told, WellFormedPayload;
    if log == [] {
      EmptyTold();
    } else {
      var n := |log| - 1;
      var before, d := log[..n], log[n];
      FoldIsHistory(before);
      assert log == before + [d];
      assert forall i :: 0 <= i < n ==> before[..i] == log[..i] && before[i] == log[i];
      if Fold(before).Ok? {
        EventVerdict(before, Fold(before).value, d);
        if Apply(Fold(before).value, n + 1, d).Ok? {
          StepTold(before, d, Fold(before).value, Fold(log).value);
        }
      }
    }
  }

  /** A log loads exactly when it is valid and each of its events is allowed by those before it. */
  lemma LoadedExactly(log: Log)
    ensures var drafts := DraftsOf(log.events);
            FoldLog(log).Ok? <==>
            ValidLog(log) && forall i :: 0 <= i < |drafts| ==> Legal(drafts[..i], drafts[i].payload)
    ensures FoldLog(log).Ok? ==> Told(DraftsOf(log.events), FoldLog(log).value)
  {
    hide Legal, Told, ValidLog, LogFault, Fold;
    ValidationExact(log);
    if ValidLog(log) {
      ValidDrafts(log);
      FoldIsHistory(DraftsOf(log.events));
    }
  }

  ghost predicate IdUsed(events: seq<Event>, eventId: Id) {
    exists i :: 0 <= i < |events| && events[i].draft.eventId == eventId
  }

  lemma HeldIsFound(log: Log, draft: Draft)
    requires ValidLog(log)
    ensures Lookup(log.events, draft.eventId).None? <==> !IdUsed(log.events, draft.eventId)
    ensures Holds(log.events, draft) <==>
            Lookup(log.events, draft.eventId).Some? && Lookup(log.events, draft.eventId).value.draft == draft
  {
    var found := Lookup(log.events, draft.eventId);
    hide WellFormedPayload, Lookup;
    if found.Some? {
      var i :| 0 <= i < |log.events| && log.events[i] == found.value;
      assert Holds(log.events, found.value.draft);
      if Holds(log.events, draft) {
        BoundDraft(log, found.value.draft, draft);
      }
    }
  }

  /**
   * One draft appended to a log that loads: taken exactly when it is well formed and either held already, or new,
   * small enough and allowed by the log.
   */
  lemma AppendedExactly(bytes: Event -> nat, log: Log, d: Draft)
    requires FoldLog(log).Ok?
    ensures var events, held := log.events, Holds(log.events, d);
            var event := MakeEvent(log.conversationId, |events| + 1, HeadHash(events), d);
            && (Append(bytes, log, [d]).Ok? <==>
                && WellFormedPayload(d.payload)
                && (held || (!IdUsed(events, d.eventId) && bytes(event) <= MAX_EVENT_BYTES
                             && Legal(DraftsOf(events), d.payload))))
            && (Append(bytes, log, [d]).Ok? ==>
                  Append(bytes, log, [d]).value == if held then log else log.(events := events + [event]))
  {
    hide Legal, Told, ValidLog, FoldLog, Apply, WellFormedPayload, Lookup, Holds, IdUsed, AppendAll;
    LoadedExactly(log);
    HeldIsFound(log, d);
    var state := FoldLog(log).value;
    EventVerdict(DraftsOf(log.events), state, d);
    AppendSingle(bytes, Folded(log, state), d);
  }

  lemma AppendSingle(bytes: Event -> nat, at: Folded, d: Draft)
    ensures AppendAll(bytes, at, [d]) == AppendOne(bytes, at, d)
  {
    hide AppendOne;
    assert [d][1..] == [];
    if AppendOne(bytes, at, d).Ok? {
      assert AppendAll(bytes, AppendOne(bytes, at, d).value, []) == AppendOne(bytes, at, d);
    }
  }
}
