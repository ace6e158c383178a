/** Workers and their results as the log tells them: what becomes of a delivery, and of the worker it comes from. */
module KernelWorkers {
  import opened Common
  import opened Kernel
  import opened KernelRuns
  import opened KernelHistory

  // What a delivery meets

  lemma RevisionTold(log: seq<Draft>, facts: map<Id, Fact>, s: State, x: Dependency)
    requires s.facts == facts && FactTold(log, facts, x.key)
    ensures RevisionIs(s, x) <==> RevisionIn(log, x)
  {
    hide Asserted, Corrections, LastFact;
  }

  lemma CurrentTold(log: seq<Draft>, s: State, dependencies: seq<Dependency>)
    requires forall key :: FactTold(log, s.facts, key)
    ensures FirstStale(s, dependencies).None? <==> forall x <- dependencies :: RevisionIn(log, x)
  {
    hide FactTold, FirstStale, RevisionIs, RevisionIn;
    forall x <- dependencies ensures RevisionIs(s, x) <==> RevisionIn(log, x) {
      RevisionTold(log, s.facts, s, x);
    }
    if FirstStale(s, dependencies).None? {
      forall x <- dependencies ensures RevisionIn(log, x) {
        var i :| 0 <= i < |dependencies| && dependencies[i] == x;
      }
    }
  }

  /** The event that spawned a worker is the only one, and the worker repeats it. */
  lemma SpawnOf(log: seq<Draft>, w: Id, worker: Worker) returns (i: nat)
    requires SpawnedAs(log, w, worker) && SpawnedOnce(log, w)
    ensures i < |log| && Spawns(log[i].payload, w)
    ensures worker.goalId == log[i].payload.goalId && worker.policyEpoch == log[i].payload.policyEpoch
    ensures worker.dependencies == log[i].payload.dependencies
    ensures forall j :: 0 <= j < |log| && Spawns(log[j].payload, w) ==> j == i
  {
    i :| i < |log| && Spawns(log[i].payload, w) && worker.goalId == log[i].payload.goalId
      && worker.purpose == log[i].payload.purpose && worker.policyEpoch == log[i].payload.policyEpoch
      && worker.dependencies == log[i].payload.dependencies && worker.spawnedSequence == i + 1;
  }

  lemma SpawnedForTold(log: seq<Draft>, w: Id, worker: Worker, g: Id)
    requires SpawnedAs(log, w, worker) && SpawnedOnce(log, w)
    ensures SpawnedFor(log, w, g) <==> worker.goalId == g
  {
    var i := SpawnOf(log, w, worker);
  }

  lemma ContractTold(log: seq<Draft>, s: State, d: Delivery, worker: Worker)
    requires SpawnedAs(log, d.workerId, worker) && SpawnedOnce(log, d.workerId) && AllWellFormed(log)
    requires (forall key :: FactTold(log, s.facts, key)) && PolicyTold(log, s.policy) && DistinctKeys(d.dependencies)
    ensures ContractHolds(log, d) <==>
            && d.policyEpoch == worker.policyEpoch == s.policy.epoch
            && DependenciesMatch(d.dependencies, worker.dependencies) && FirstStale(s, worker.dependencies).None?
  {
    var i := SpawnOf(log, d.workerId, worker);
    assert WellFormedPayload(log[i].payload);
    MatchIsSetEquality(d.dependencies, worker.dependencies);
    CurrentTold(log, s, worker.dependencies);
    hide FactTold, DependenciesMatch, FirstStale, RevisionIn, SpawnedAs, SpawnedOnce, Epochs;
  }

  lemma WorkerRuns(log: seq<Draft>, s: State, w: Id)
    requires WorkerTold(log, s.workers, w)
    ensures RunningIn(log, w) <==> w in s.workers && s.workers[w].status.Running?
  {
    hide SpawnedAs, StoppedAs;
    if RunningIn(log, w) {
      RunningWasSpawned(log, w);
    }
  }

  lemma RunningWasSpawned(log: seq<Draft>, w: Id)
    requires RunningIn(log, w)
    ensures Spawned(log, w)
  {
  }

  /** The admission decision is the outcome the log determines. */
  lemma AdmissionTold(log: seq<Draft>, s: State, d: Delivery)
    requires (forall key :: FactTold(log, s.facts, key)) && PolicyTold(log, s.policy)
    requires GoalTold(log, s.goals, d.goalId)
    requires OneActiveGoal(s) && WorkerTold(log, s.workers, d.workerId) && SpawnedOnce(log, d.workerId)
    requires AllWellFormed(log) && DistinctKeys(d.dependencies) && !SettledIn(log, d.deliveryId)
    ensures Outcome(log, d) == Admission(s, d)
  {
    WorkerRuns(log, s, d.workerId);
    if RunningIn(log, d.workerId) {
      var worker := s.workers[d.workerId];
      SpawnedForTold(log, d.workerId, worker, d.goalId);
      ContractTold(log, s, d, worker);
    }
    hide RunningIn, SpawnedFor, ContractHolds, SettledIn, PausedIn, ActiveIn, DoneIn, SpawnedAs, StoppedAs;
    hide DependenciesMatch, FirstStale, FactTold, PolicyTold, DistinctKeys, Activated, GoalFrom, SpawnedOnce;
  }

  // Workers

  lemma SpawnEffect(s: State, n: nat, d: Draft, t: State)
    requires Apply(s, n, d) == Ok(t) && d.payload.WorkerSpawned?
    ensures var p := d.payload;
            p.workerId !in s.workers && t.workers == s.workers[p.workerId :=
              Worker(p.goalId, p.purpose, p.policyEpoch, p.dependencies, n, Running)]
  {
    SpawnApplied(s, n, d, t);
    hide Apply, FirstStale, RunningWorkers;
  }

  lemma EndEffect(s: State, n: nat, d: Draft, t: State)
    requires Apply(s, n, d) == Ok(t) && (d.payload.WorkerCancelled? || d.payload.WorkerFinished?)
    ensures var w := d.payload.workerId;
            && w in s.workers && s.workers[w].status.Running?
            && t.workers == s.workers[w := s.workers[w].(status := if d.payload.WorkerCancelled? then Cancelled
                                                                   else d.payload.status)]
  {
    hide ApplyFact, ApplyGoal, ApplyCommitment, ApplyPolicy, ApplyCheckpoint, ApplySpawn, ApplyDelivery;
  }

  ghost predicate Open(s: State, d: Delivery) {
    d.deliveryId in s.decisions ==> s.decisions[d.deliveryId].status.Deferred?
  }

  lemma OpenDecides(s: State, n: nat, eventId: Id, d: Delivery, t: State)
    requires ApplyDelivery(s, n, eventId, d) == Ok(t) && Open(s, d)
    ensures t == Decide(s, n, eventId, d)
  {
    hide Decide;
  }

  lemma DecisionEffect(s: State, n: nat, eventId: Id, d: Delivery, t: State)
    requires ApplyDelivery(s, n, eventId, d) == Ok(t) && Open(s, d)
    ensures t.decisions == s.decisions[d.deliveryId := Decision(d, Admission(s, d))]
  {
    OpenDecides(s, n, eventId, d, t);
    hide Admission, FactsOf, AdvisoriesOf, ApplyDelivery;
  }

  lemma RecordEffect(s: State, n: nat, eventId: Id, d: Delivery, t: State)
    requires ApplyDelivery(s, n, eventId, d) == Ok(t) && Open(s, d)
    ensures var status := Admission(s, d);
            && t.deliveries == s.deliveries +
                 [DeliveryRecord(d.deliveryId, d.workerId, eventId, status,
                                 if status == Accepted then Some(n) else None, d)]
            && t.workerFacts == s.workerFacts + (if status == Accepted then FactsOf(d, d.facts, n) else [])
            && t.advisories == s.advisories + (if status == Accepted then AdvisoriesOf(d.advisories, n) else [])
  {
    OpenDecides(s, n, eventId, d, t);
    hide Admission, FactsOf, AdvisoriesOf, ApplyDelivery;
    assert s.workerFacts + [] == s.workerFacts && s.advisories + [] == s.advisories;
  }

  lemma StopEffect(s: State, n: nat, eventId: Id, d: Delivery, t: State)
    requires ApplyDelivery(s, n, eventId, d) == Ok(t) && Open(s, d)
    ensures t.workers ==
            if Settles(Admission(s, d)) && d.workerId in s.workers && s.workers[d.workerId].status.Running?
            then s.workers[d.workerId :=
                   s.workers[d.workerId].(status := if Admission(s, d) == Accepted then Completed else Superseded)]
            else s.workers
  {
    OpenDecides(s, n, eventId, d, t);
    AcceptedRuns(s, d);
    hide Admission, FactsOf, AdvisoriesOf, ApplyDelivery;
  }

  lemma AcceptedRuns(s: State, d: Delivery)
    ensures Admission(s, d) == Accepted ==> d.workerId in s.workers && s.workers[d.workerId].status.Running?
    ensures Admission(s, d) != Duplicate
  {
    hide DependenciesMatch, FirstStale;
  }

  lemma DuplicateEffect(s: State, n: nat, eventId: Id, d: Delivery, t: State)
    requires ApplyDelivery(s, n, eventId, d) == Ok(t)
    requires d.deliveryId in s.decisions && !s.decisions[d.deliveryId].status.Deferred?
    ensures t == s.(deliveries := s.deliveries +
                      [DeliveryRecord(d.deliveryId, d.workerId, eventId, Duplicate, None, d)])
  {
    hide Decide;
  }

  /** What the log so far tells of facts, policy and goals, which decides what becomes of workers. */
  ghost predicate ContextTold(log: seq<Draft>, s: State) {
    && (forall key :: FactTold(log, s.facts, key)) && PolicyTold(log, s.policy)
    && (forall g :: GoalTold(log, s.goals, g)) && OneActiveGoal(s) && AllWellFormed(log)
  }

  ghost predicate WorkersTold(log: seq<Draft>, s: State) {
    && (forall w :: WorkerTold(log, s.workers, w) && SpawnedOnce(log, w))
    && (forall id :: DecisionTold(log, s.decisions, id))
  }

  lemma OutcomeTold(log: seq<Draft>, s: State, d: Delivery)
    requires ContextTold(log, s) && WorkersTold(log, s) && DistinctKeys(d.dependencies)
    ensures Outcome(log, d) ==
            if d.deliveryId in s.decisions && !s.decisions[d.deliveryId].status.Deferred? then Duplicate
            else Admission(s, d)
  {
    assert DecisionTold(log, s.decisions, d.deliveryId);
    assert WorkerTold(log, s.workers, d.workerId) && SpawnedOnce(log, d.workerId);
    if SettledIn(log, d.deliveryId) {
      SettledWasDelivered(log, d.deliveryId);
      hide Admission, SettledIn, WorkerTold, SpawnedOnce;
    } else {
      hide FactTold, PolicyTold, SettledIn, Outcome, Admission, WorkerTold, SpawnedOnce;
      AdmissionTold(log, s, d);
    }
  }

  lemma SettledWasDelivered(log: seq<Draft>, id: Id)
    requires SettledIn(log, id)
    ensures exists i :: 0 <= i < |log| && Delivers(log[i].payload, id)
  {
    var j :| 0 <= j < |log| && Delivers(log[j].payload, id)
      && Settles(Outcome(log[..j], log[j].payload.delivery));
  }

  lemma OpenIff(s: State, d: Delivery)
    ensures Open(s, d) <==> !(d.deliveryId in s.decisions && !s.decisions[d.deliveryId].status.Deferred?)
  {
  }

  lemma StopsTold(log: seq<Draft>, p: Payload, w: Id)
    requires p.WorkerResultDelivered?
    ensures StopsAs(log, p, w) ==
            if !RunningIn(log, w) || p.delivery.workerId != w || !Settles(Outcome(log, p.delivery)) then None
            else Some(if Outcome(log, p.delivery) == Accepted then Completed else Superseded)
  {
    hide RunningIn, Outcome;
  }

  /** A delivery stops its own worker, if it was running, as its outcome says. */
  lemma DeliveryStops(log: seq<Draft>, d: Draft, s: State, t: State, w: Id)
    requires ContextTold(log, s) && WorkersTold(log, s) && d.payload.WorkerResultDelivered?
    requires DistinctKeys(d.payload.delivery.dependencies)
    requires ApplyDelivery(s, |log| + 1, d.eventId, d.payload.delivery) == Ok(t)
    ensures w in t.workers <==> w in s.workers
    ensures w in s.workers ==>
              var stop := StopsAs(log, d.payload, w);
              t.workers[w] == if stop.Some? then s.workers[w].(status := stop.value) else s.workers[w]
  {
    hide ContextTold, WorkerTold, Outcome, RunningIn, Admission, ApplyDelivery, StopsAs, Open, DecisionTold;
    hide SpawnedOnce;
    var delivery := d.payload.delivery;
    assert WorkerTold(log, s.workers, w);
    hide WorkersTold;
    OutcomeTold(log, s, delivery);
    WorkerRuns(log, s, w);
    StopsTold(log, d.payload, w);
    OpenIff(s, delivery);
    if Open(s, delivery) {
      StopEffect(s, |log| + 1, d.eventId, delivery, t);
    } else {
      DuplicateEffect(s, |log| + 1, d.eventId, delivery, t);
    }
  }

  lemma EventStops(log: seq<Draft>, d: Draft, s: State, t: State, w: Id)
    requires ContextTold(log, s) && WorkersTold(log, s) && WellFormedPayload(d.payload) && !Spawns(d.payload, w)
    requires Apply(s, |log| + 1, d) == Ok(t)
    ensures w in t.workers <==> w in s.workers
    ensures w in s.workers ==>
              var stop := StopsAs(log, d.payload, w);
              t.workers[w] == if stop.Some? then s.workers[w].(status := stop.value) else s.workers[w]
  {
    hide Apply, ContextTold, RunningIn, Outcome, ApplyDelivery, SpawnedOnce, DecisionTold, WorkerTold;
    hide WellFormedPayload;
    if d.payload.WorkerResultDelivered? {
      DeliveryApplied(s, |log| + 1, d, t);
      DeclaresDistinct(d.payload);
      DeliveryStops(log, d, s, t, w);
    } else {
      assert WorkerTold(log, s.workers, w);
      hide WorkersTold;
      WorkerRuns(log, s, w);
      StepFrame(s, |log| + 1, d, t);
      if d.payload.WorkerSpawned? {
        SpawnEffect(s, |log| + 1, d, t);
      } else if TouchesWorkers(d.payload) {
        EndEffect(s, |log| + 1, d, t);
      }
    }
  }

  lemma DeclaresDistinct(p: Payload)
    requires WellFormedPayload(p) && p.WorkerResultDelivered?
    ensures DistinctKeys(p.delivery.dependencies)
  {
  }

  lemma StopsOnlyRunning(log: seq<Draft>, p: Payload, w: Id)
    ensures StopsAs(log, p, w).Some? ==> RunningIn(log, w)
    ensures StopsAs(log, p, w) == Some(Running) ==> p.WorkerFinished? && p.status.Running?
  {
    hide RunningIn, Outcome;
  }

  lemma WorkerKept(log: seq<Draft>, d: Draft, s: State, t: State, w: Id)
    requires WorkerTold(log, s.workers, w) && SpawnedOnce(log, w)
    requires !Spawns(d.payload, w) && WellFormedPayload(d.payload)
    requires w in t.workers <==> w in s.workers
    requires w in s.workers ==>
               var stop := StopsAs(log, d.payload, w);
               t.workers[w] == if stop.Some? then s.workers[w].(status := stop.value) else s.workers[w]
    ensures WorkerTold(log + [d], t.workers, w) && SpawnedOnce(log + [d], w)
  {
    SpawnedSnoc(log, d, w);
    RunningSnoc(log, d, w);
    StopsOnlyRunning(log, d.payload, w);
    hide RunningIn, StopsAs;
    if w in s.workers {
      SpawnedAsSnoc(log, d, w, s.workers[w], t.workers[w].status);
      StoppedSnoc(log, d, w, t.workers[w].status);
    }
  }

  lemma WorkerBorn(log: seq<Draft>, d: Draft, s: State, t: State, w: Id)
    requires WorkerTold(log, s.workers, w) && Spawns(d.payload, w) && w !in s.workers
    requires w in t.workers && var p := d.payload;
             t.workers[w] == Worker(p.goalId, p.purpose, p.policyEpoch, p.dependencies, |log| + 1, Running)
    ensures WorkerTold(log + [d], t.workers, w) && SpawnedOnce(log + [d], w)
  {
    SpawnedSnoc(log, d, w);
    RunningSnoc(log, d, w);
    hide RunningIn, StopsAs;
    var more := log + [d];
    assert more[|log|] == d;
    assert Spawns(more[|log|].payload, w);
    assert SpawnedAs(more, w, t.workers[w]);
    assert !Spawned(log, w) && forall i :: 0 <= i < |log| ==> more[i] == log[i];
  }

  lemma WorkerStepTold(log: seq<Draft>, d: Draft, s: State, t: State, w: Id)
    requires ContextTold(log, s) && WorkersTold(log, s) && WellFormedPayload(d.payload)
    requires Apply(s, |log| + 1, d) == Ok(t)
    ensures WorkerTold(log + [d], t.workers, w) && SpawnedOnce(log + [d], w)
  {
    assert WorkerTold(log, s.workers, w) && SpawnedOnce(log, w);
    if Spawns(d.payload, w) {
      hide Apply, ContextTold, WorkersTold, WorkerTold, SpawnedOnce;
      SpawnEffect(s, |log| + 1, d, t);
      WorkerBorn(log, d, s, t, w);
    } else {
      hide Apply, ContextTold, WorkersTold, WorkerTold, SpawnedOnce;
      EventStops(log, d, s, t, w);
      WorkerKept(log, d, s, t, w);
    }
  }

  // Decisions

  lemma DecisionStepTold(log: seq<Draft>, d: Draft, s: State, t: State, id: Id)
    requires ContextTold(log, s) && WorkersTold(log, s) && WellFormedPayload(d.payload)
    requires Apply(s, |log| + 1, d) == Ok(t)
    ensures DecisionTold(log + [d], t.decisions, id)
  {
    hide Apply, ContextTold, Outcome, SettledIn, Admission, ApplyDelivery, DecisionTold, WorkerTold, SpawnedOnce;
    hide WellFormedPayload;
    assert DecisionTold(log, s.decisions, id);
    hide WorkersTold;
    SettledSnoc(log, d, id);
    if d.payload.WorkerResultDelivered? {
      DeliveryApplied(s, |log| + 1, d, t);
      DeclaresDistinct(d.payload);
      if Delivers(d.payload, id) {
        OutcomeTold(log, s, d.payload.delivery);
        AcceptedRuns(s, d.payload.delivery);
        DecisionMade(log, d, s, t);
      } else {
        OtherDecision(s, |log| + 1, d.eventId, d.payload.delivery, t, id);
        DecisionKept(log, d, s.decisions, t.decisions, id);
      }
    } else {
      StepFrame(s, |log| + 1, d, t);
      DecisionKept(log, d, s.decisions, t.decisions, id);
    }
  }

  lemma OtherDecision(s: State, n: nat, eventId: Id, d: Delivery, t: State, id: Id)
    requires ApplyDelivery(s, n, eventId, d) == Ok(t) && d.deliveryId != id
    ensures id in t.decisions <==> id in s.decisions
    ensures id in s.decisions ==> t.decisions[id] == s.decisions[id]
  {
    hide Admission, FactsOf, AdvisoriesOf;
  }

  lemma DecisionKept(log: seq<Draft>, d: Draft, decisions: map<Id, Decision>, after: map<Id, Decision>, id: Id)
    requires DecisionTold(log, decisions, id) && !Delivers(d.payload, id)
    requires (id in after <==> id in decisions) && (id in decisions ==> after[id] == decisions[id])
    requires SettledIn(log + [d], id) <==> SettledIn(log, id)
    ensures DecisionTold(log + [d], after, id)
  {
    hide SettledIn;
    var more := log + [d];
    assert more[|log|] == d && forall i :: 0 <= i < |log| ==> more[i] == log[i];
  }

  lemma DecisionMade(log: seq<Draft>, d: Draft, s: State, t: State)
    requires d.payload.WorkerResultDelivered?
    requires ApplyDelivery(s, |log| + 1, d.eventId, d.payload.delivery) == Ok(t)
    requires var delivery := d.payload.delivery;
             var id := delivery.deliveryId;
             && DecisionTold(log, s.decisions, id) && Admission(s, delivery) != Duplicate
             && (SettledIn(log + [d], id) <==> SettledIn(log, id) || Settles(Outcome(log, delivery)))
             && Outcome(log, delivery) == if id in s.decisions && !s.decisions[id].status.Deferred? then Duplicate
                                          else Admission(s, delivery)
    ensures DecisionTold(log + [d], t.decisions, d.payload.delivery.deliveryId)
  {
    hide ApplyDelivery, DecisionTold, SettledIn, Outcome, Admission, Open;
    var delivery := d.payload.delivery;
    SameContent(s, |log| + 1, d.eventId, delivery, t);
    OpenIff(s, delivery);
    if delivery.deliveryId in s.decisions && !s.decisions[delivery.deliveryId].status.Deferred? {
      DuplicateEffect(s, |log| + 1, d.eventId, delivery, t);
      DecisionStays(log, d, s.decisions);
    } else {
      DecisionEffect(s, |log| + 1, d.eventId, delivery, t);
      DecisionNew(log, d, s.decisions, Admission(s, delivery));
    }
  }

  lemma DecisionStays(log: seq<Draft>, d: Draft, decisions: map<Id, Decision>)
    requires d.payload.WorkerResultDelivered?
    requires var id := d.payload.delivery.deliveryId;
             && DecisionTold(log, decisions, id) && id in decisions && decisions[id].content == d.payload.delivery
             && !decisions[id].status.Deferred? && (SettledIn(log, id) ==> SettledIn(log + [d], id))
    ensures DecisionTold(log + [d], decisions, d.payload.delivery.deliveryId)
  {
    hide SettledIn;
    var more := log + [d];
    assert more[|log|] == d && forall i :: 0 <= i < |log| ==> more[i] == log[i];
  }

  lemma DecisionNew(log: seq<Draft>, d: Draft, decisions: map<Id, Decision>, status: DeliveryStatus)
    requires d.payload.WorkerResultDelivered? && status != Duplicate
    requires var id := d.payload.delivery.deliveryId;
             && DecisionTold(log, decisions, id)
             && (id in decisions ==> decisions[id].content == d.payload.delivery && decisions[id].status.Deferred?)
             && (SettledIn(log + [d], id) <==> SettledIn(log, id) || Settles(status))
    ensures var id := d.payload.delivery.deliveryId;
            DecisionTold(log + [d], decisions[id := Decision(d.payload.delivery, status)], id)
  {
    var id, more := d.payload.delivery.deliveryId, log + [d];
    if SettledIn(log, id) {
      SettledWasDelivered(log, id);
    }
    hide SettledIn;
    assert more[|log|] == d && forall i :: 0 <= i < |log| ==> more[i] == log[i];
    assert Delivers(more[|log|].payload, id);
  }

  lemma SameContent(s: State, n: nat, eventId: Id, d: Delivery, t: State)
    requires ApplyDelivery(s, n, eventId, d) == Ok(t)
    ensures d.deliveryId in s.decisions ==> s.decisions[d.deliveryId].content == d
  {
    hide Decide;
  }

  // Records, facts and advisories

  lemma AdvisoryFrame(s: State, n: nat, d: Draft, t: State)
    requires Apply(s, n, d) == Ok(t) && !d.payload.WorkerResultDelivered?
    ensures t.advisories == s.advisories +
            if d.payload.AdvisoryRecorded? then [Advisory(d.payload.episodeId, d.payload.summary, FromModel, n)] else []
  {
    hide ApplyFact, ApplyGoal, ApplyCommitment, ApplyCheckpoint, ApplySpawn, ApplyWorkerEnd, ApplyDelivery;
    assert s.advisories + [] == s.advisories;
  }

  ghost predicate ResultsTold(log: seq<Draft>, s: State) {
    s.deliveries == RecordsIn(log) && s.workerFacts == FactsIn(log) && s.advisories == AdvisoriesIn(log)
  }

  lemma ResultsSnoc(log: seq<Draft>, d: Draft)
    ensures var p, more := d.payload, log + [d];
            && (!p.WorkerResultDelivered? ==>
                  && RecordsIn(more) == RecordsIn(log) && FactsIn(more) == FactsIn(log)
                  && AdvisoriesIn(more) == AdvisoriesIn(log) +
                     if p.AdvisoryRecorded? then [Advisory(p.episodeId, p.summary, FromModel, |log| + 1)] else [])
            && (p.WorkerResultDelivered? ==>
                  var r, o := p.delivery, Outcome(log, p.delivery);
                  && RecordsIn(more) == RecordsIn(log) +
                     [DeliveryRecord(r.deliveryId, r.workerId, d.eventId, o,
                                     if o == Accepted then Some(|log| + 1) else None, r)]
                  && FactsIn(more) == FactsIn(log) + (if o == Accepted then FactsOf(r, r.facts, |log| + 1) else [])
                  && AdvisoriesIn(more) == AdvisoriesIn(log) +
                     (if o == Accepted then AdvisoriesOf(r.advisories, |log| + 1) else []))
  {
    hide Outcome, FactsOf, AdvisoriesOf;
    assert (log + [d])[..|log|] == log;
    assert RecordsIn(log) + [] == RecordsIn(log) && FactsIn(log) + [] == FactsIn(log);
  }

  lemma ResultsStepTold(log: seq<Draft>, d: Draft, s: State, t: State)
    requires ContextTold(log, s) && WorkersTold(log, s) && ResultsTold(log, s) && WellFormedPayload(d.payload)
    requires Apply(s, |log| + 1, d) == Ok(t)
    ensures ResultsTold(log + [d], t)
  {
    hide Apply, ContextTold, WorkersTold, Outcome, Admission, ApplyDelivery, Open, WellFormedPayload;
    hide FactsOf, AdvisoriesOf, RecordsIn, FactsIn, AdvisoriesIn;
    ResultsSnoc(log, d);
    if d.payload.WorkerResultDelivered? {
      var delivery := d.payload.delivery;
      DeliveryApplied(s, |log| + 1, d, t);
      DeclaresDistinct(d.payload);
      OutcomeTold(log, s, delivery);
      OpenIff(s, delivery);
      if Open(s, delivery) {
        RecordEffect(s, |log| + 1, d.eventId, delivery, t);
      } else {
        DuplicateEffect(s, |log| + 1, d.eventId, delivery, t);
      }
    } else {
      StepFrame(s, |log| + 1, d, t);
      AdvisoryFrame(s, |log| + 1, d, t);
    }
  }
}
