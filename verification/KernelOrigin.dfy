/** Folding a log yields the state its events tell, part by part. */
module KernelOrigin {
  import opened Common
  import opened Kernel
  import opened KernelRuns
  import opened KernelHistory

  // Facts

  lemma FactUntouched(log: seq<Draft>, d: Draft, facts: map<Id, Fact>, key: Id)
    requires FactTold(log, facts, key) && !Asserts(d.payload, key) && !Corrects(d.payload, key)
    ensures FactTold(log + [d], facts, key)
  {
    CorrectionsSnoc(log, d, key);
    AssertedSnoc(log, d, key);
    hide Asserted, Corrections;
    if key in facts {
      var i: nat :| LastFact(log, key, i) &&
        facts[key] == Fact(log[i].payload.value, 1 + Corrections(log, key), log[i].payload.authority, i + 1);
      LastFactSnoc(log, d, key, i);
      assert (log + [d])[i] == log[i];
    }
  }

  lemma FactTouched(log: seq<Draft>, d: Draft, s: State, t: State, key: Id)
    requires FactTold(log, s.facts, key) && (Asserts(d.payload, key) || Corrects(d.payload, key))
    requires ApplyFact(s, |log| + 1, d.payload) == Ok(t) && (!Asserted(log, key) ==> Corrections(log, key) == 0)
    ensures FactTold(log + [d], t.facts, key)
  {
    CorrectionsSnoc(log, d, key);
    AssertedSnoc(log, d, key);
    hide Asserted, Corrections;
    assert (log + [d])[|log|] == d;
    assert LastFact(log + [d], key, |log|);
  }

  lemma FactKeyOnly(s: State, n: nat, p: Payload, t: State, key: Id)
    requires (p.FactAsserted? || p.FactCorrected?) && ApplyFact(s, n, p) == Ok(t) && p.key != key
    ensures key in t.facts <==> key in s.facts
    ensures key in s.facts ==> t.facts[key] == s.facts[key]
  {
  }

  lemma SameFactTold(log: seq<Draft>, facts: map<Id, Fact>, other: map<Id, Fact>, key: Id)
    requires FactTold(log, facts, key) && (key in facts <==> key in other)
    requires key in facts ==> facts[key] == other[key]
    ensures FactTold(log, other, key)
  {
    hide Asserted, Corrections, LastFact;
  }

  /** A fact is corrected only after it was asserted. */
  ghost predicate CorrectedAfter(log: seq<Draft>, key: Id) {
    !Asserted(log, key) ==> Corrections(log, key) == 0
  }

  lemma FactStepTold(log: seq<Draft>, d: Draft, s: State, t: State, key: Id)
    requires FactTold(log, s.facts, key) && CorrectedAfter(log, key) && Apply(s, |log| + 1, d) == Ok(t)
    ensures FactTold(log + [d], t.facts, key) && CorrectedAfter(log + [d], key)
  {
    CorrectionsSnoc(log, d, key);
    AssertedSnoc(log, d, key);
    StepFrame(s, |log| + 1, d, t);
    if TouchesFacts(d.payload) {
      FactApplied(s, |log| + 1, d, t);
      hide FactTold, Apply, Asserted, Corrections;
      if d.payload.key == key {
        FactTouched(log, d, s, t, key);
        CorrectNeeds(log, s, |log| + 1, d.payload, t, key);
      } else {
        FactUntouched(log, d, s.facts, key);
        FactKeyOnly(s, |log| + 1, d.payload, t, key);
        SameFactTold(log + [d], s.facts, t.facts, key);
      }
    } else {
      hide FactTold, Apply, Asserted, Corrections;
      FactUntouched(log, d, s.facts, key);
    }
  }

  lemma CorrectNeeds(log: seq<Draft>, s: State, n: nat, p: Payload, t: State, key: Id)
    requires FactTold(log, s.facts, key) && (p.FactAsserted? || p.FactCorrected?) && ApplyFact(s, n, p) == Ok(t)
    ensures Corrects(p, key) ==> Asserted(log, key)
  {
    hide Asserted, Corrections, LastFact;
  }

  lemma FactApplied(s: State, n: nat, d: Draft, t: State)
    requires Apply(s, n, d) == Ok(t) && TouchesFacts(d.payload)
    ensures ApplyFact(s, n, d.payload) == Ok(t)
  {
    hide ApplyFact;
  }

  // Policy

  lemma PolicyStepTold(log: seq<Draft>, d: Draft, s: State, t: State)
    requires PolicyTold(log, s.policy) && Apply(s, |log| + 1, d) == Ok(t)
    ensures PolicyTold(log + [d], t.policy)
  {
    EpochsSnoc(log, d);
    StepFrame(s, |log| + 1, d, t);
    var more := log + [d];
    assert more[|log|] == d;
    if d.payload.PolicyAdvanced? {
      PolicyApplied(s, |log| + 1, d, t);
      hide Apply, Epochs;
      assert t.policy.invariants == more[|log|].payload.invariants;
    } else {
      hide Apply, Epochs;
      if s.policy.epoch > 0 {
        var i :| 0 <= i < |log| && log[i].payload.PolicyAdvanced? && s.policy.invariants == log[i].payload.invariants
                 && forall j :: i < j < |log| ==> !log[j].payload.PolicyAdvanced?;
        assert more[i] == log[i];
      }
    }
  }

  lemma PolicyApplied(s: State, n: nat, d: Draft, t: State)
    requires Apply(s, n, d) == Ok(t) && d.payload.PolicyAdvanced?
    ensures d.payload.epoch == s.policy.epoch + 1 && t.policy == Policy(d.payload.epoch, d.payload.invariants)
  {
  }

  // Goals

  lemma GoalApplied(s: State, n: nat, d: Draft, t: State)
    requires Apply(s, n, d) == Ok(t) && TouchesGoals(d.payload)
    ensures ApplyGoal(s, n, d.payload) == Ok(t)
  {
    hide ApplyGoal;
  }

  /** What a goal event does to one goal: its own event sets it, an activation of another displaces it. */
  lemma GoalEffect(s: State, n: nat, p: Payload, t: State, g: Id)
    requires TouchesGoals(p) && ApplyGoal(s, n, p) == Ok(t)
    requires OneActiveGoal(s)
    ensures g in t.goals <==> g in s.goals || Activates(p, g)
    ensures p.goalId == g && p.GoalActivated? ==> t.goals[g] == Goal(p.description, n, GoalActive)
    ensures p.goalId == g && !p.GoalActivated? ==>
              && g in s.goals
              && t.goals[g] == s.goals[g].(status := if p.GoalResumed? then GoalActive
                                                     else if p.GoalSuspended? then GoalPaused else GoalDone)
    ensures p.goalId != g && g in s.goals ==>
              t.goals[g] == if p.GoalActivated? && s.currentGoalId == Some(g) then s.goals[g].(status := GoalPaused)
                            else s.goals[g]
    ensures t.currentGoalId == if Opening(p) then Some(p.goalId) else None
    ensures !p.GoalActivated? && !p.GoalResumed? ==> s.currentGoalId == Some(p.goalId)
    ensures p.GoalResumed? ==> s.currentGoalId == None
  {
  }

  lemma GoalFromSnoc(log: seq<Draft>, d: Draft, g: Id, goal: Goal, status: GoalStatus)
    requires GoalFrom(log, g, goal)
    ensures GoalFrom(log + [d], g, goal.(status := status))
  {
    var i: nat :| i < |log| && Activates(log[i].payload, g)
      && goal.description == log[i].payload.description && goal.activatedSequence == i + 1;
    assert (log + [d])[i] == log[i];
  }

  lemma GoalFromNow(log: seq<Draft>, d: Draft, g: Id)
    requires Activates(d.payload, g)
    ensures GoalFrom(log + [d], g, Goal(d.payload.description, |log| + 1, GoalActive))
  {
    assert (log + [d])[|log|] == d;
  }

  lemma GoalTouched(log: seq<Draft>, d: Draft, s: State, t: State, g: Id)
    requires GoalTold(log, s.goals, g) && GoalEvent(d.payload, g) && OneActiveGoal(s)
    requires ApplyGoal(s, |log| + 1, d.payload) == Ok(t)
    ensures GoalTold(log + [d], t.goals, g)
  {
    OwnGoalSnoc(log, d, g);
    ActivatedSnoc(log, d, g);
    GoalEffect(s, |log| + 1, d.payload, t, g);
    hide ActiveIn, PausedIn, DoneIn, Activated, GoalFrom, ApplyGoal;
    if d.payload.GoalActivated? {
      GoalFromNow(log, d, g);
    } else {
      GoalFromSnoc(log, d, g, s.goals[g], t.goals[g].status);
    }
  }

  lemma GoalUntouched(log: seq<Draft>, d: Draft, s: State, t: State, g: Id)
    requires GoalTold(log, s.goals, g) && !GoalEvent(d.payload, g) && OneActiveGoal(s)
    requires g in t.goals <==> g in s.goals
    requires g in s.goals ==>
               t.goals[g] == if ActivatesOther(d.payload, g) && s.currentGoalId == Some(g)
                             then s.goals[g].(status := GoalPaused) else s.goals[g]
    ensures GoalTold(log + [d], t.goals, g)
  {
    OtherGoalSnoc(log, d, g);
    ActivatedSnoc(log, d, g);
    hide ActiveIn, PausedIn, DoneIn, Activated, GoalFrom;
    if g in s.goals {
      GoalFromSnoc(log, d, g, s.goals[g], t.goals[g].status);
    }
  }

  lemma GoalStepTold(log: seq<Draft>, d: Draft, s: State, t: State, g: Id)
    requires GoalTold(log, s.goals, g) && OneActiveGoal(s) && Apply(s, |log| + 1, d) == Ok(t)
    ensures GoalTold(log + [d], t.goals, g)
  {
    StepFrame(s, |log| + 1, d, t);
    if TouchesGoals(d.payload) {
      GoalApplied(s, |log| + 1, d, t);
      GoalEffect(s, |log| + 1, d.payload, t, g);
      hide GoalTold, Apply, ApplyGoal;
      if d.payload.goalId == g {
        GoalTouched(log, d, s, t, g);
      } else {
        GoalUntouched(log, d, s, t, g);
      }
    } else {
      hide GoalTold, Apply;
      GoalUntouched(log, d, s, t, g);
    }
  }

  // Commitments and checkpoints

  lemma WorkerRest(s: State, n: nat, d: Draft, t: State)
    requires Apply(s, n, d) == Ok(t) && (TouchesWorkers(d.payload) || d.payload.AdvisoryRecorded?)
    ensures t.commitments == s.commitments && t.checkpoints == s.checkpoints
  {
    hide ApplyFact, ApplyGoal, ApplyCommitment, ApplyPolicy, ApplyCheckpoint, ApplySpawn, ApplyWorkerEnd, ApplyDelivery;
  }

  lemma KnowledgeRest(s: State, n: nat, d: Draft, t: State)
    requires Apply(s, n, d) == Ok(t) && (TouchesFacts(d.payload) || TouchesGoals(d.payload))
    ensures t.commitments == s.commitments && t.checkpoints == s.checkpoints
  {
    hide ApplyFact, ApplyGoal, ApplyCommitment, ApplyPolicy, ApplyCheckpoint, ApplySpawn, ApplyWorkerEnd, ApplyDelivery;
    if TouchesFacts(d.payload) {
      assert ApplyFact(s, n, d.payload) == Ok(t);
    } else {
      assert ApplyGoal(s, n, d.payload) == Ok(t);
    }
  }

  lemma ControlRest(s: State, n: nat, d: Draft, t: State)
    requires Apply(s, n, d) == Ok(t)
    requires var p := d.payload;
             p.CommitmentOpened? || p.CommitmentResolved? || p.PolicyAdvanced? || p.FlowCheckpointRecorded?
    ensures if d.payload.CommitmentOpened? || d.payload.CommitmentResolved?
            then ApplyCommitment(s, n, d.payload) == Ok(t) else t.commitments == s.commitments
    ensures if d.payload.FlowCheckpointRecorded?
            then ApplyCheckpoint(s, n, d.payload.checkpoint) == Ok(t) else t.checkpoints == s.checkpoints
  {
    hide ApplyFact, ApplyGoal, ApplyCommitment, ApplyCheckpoint, ApplySpawn, ApplyWorkerEnd, ApplyDelivery;
  }

  lemma RestFrame(s: State, n: nat, d: Draft, t: State)
    requires Apply(s, n, d) == Ok(t)
    ensures if d.payload.CommitmentOpened? || d.payload.CommitmentResolved?
            then ApplyCommitment(s, n, d.payload) == Ok(t) else t.commitments == s.commitments
    ensures if d.payload.FlowCheckpointRecorded?
            then ApplyCheckpoint(s, n, d.payload.checkpoint) == Ok(t) else t.checkpoints == s.checkpoints
  {
    hide Apply, ApplyCommitment, ApplyCheckpoint;
    if TouchesWorkers(d.payload) || d.payload.AdvisoryRecorded? {
      WorkerRest(s, n, d, t);
    } else if TouchesFacts(d.payload) || TouchesGoals(d.payload) {
      KnowledgeRest(s, n, d, t);
    } else {
      ControlRest(s, n, d, t);
    }
  }

  lemma OpenedSnoc(log: seq<Draft>, d: Draft, c: Id)
    ensures Opened(log + [d], c) <==> Opened(log, c) || Opens(d.payload, c)
    ensures Resolved(log + [d], c) <==> Resolved(log, c) || Resolves(d.payload, c)
  {
    var more := log + [d];
    assert more[|log|] == d && forall i :: 0 <= i < |log| ==> more[i] == log[i];
  }

  lemma OpenedAsSnoc(log: seq<Draft>, d: Draft, c: Id, commitment: Commitment, resolution: Option<Resolution>)
    requires OpenedAs(log, c, commitment)
    ensures OpenedAs(log + [d], c, commitment.(resolution := resolution))
  {
    var i: nat :| i < |log| && Opens(log[i].payload, c) && commitment.goalId == log[i].payload.goalId
      && commitment.description == log[i].payload.description && commitment.openedSequence == i + 1;
    assert (log + [d])[i] == log[i];
  }

  lemma ResolutionSnoc(log: seq<Draft>, d: Draft, c: Id, resolution: Option<Resolution>)
    requires ResolutionTold(log, c, resolution) && !Resolves(d.payload, c)
    ensures ResolutionTold(log + [d], c, resolution)
  {
    OpenedSnoc(log, d, c);
    if Resolved(log, c) {
      hide Resolved;
      var i: nat :| i < |log| && Resolves(log[i].payload, c)
        && resolution == Some(Resolution(log[i].payload.resolution, i + 1));
      assert (log + [d])[i] == log[i];
    }
  }

  lemma CommitmentTouched(log: seq<Draft>, d: Draft, s: State, t: State, c: Id)
    requires CommitmentTold(log, s.commitments, c) && (Opens(d.payload, c) || Resolves(d.payload, c))
    requires ApplyCommitment(s, |log| + 1, d.payload) == Ok(t) && (Resolved(log, c) ==> Opened(log, c))
    ensures CommitmentTold(log + [d], t.commitments, c)
  {
    OpenedSnoc(log, d, c);
    var more := log + [d];
    assert more[|log|] == d;
    hide Opened, Resolved;
    if Resolves(d.payload, c) {
      OpenedAsSnoc(log, d, c, s.commitments[c], t.commitments[c].resolution);
      assert Resolves(more[|log|].payload, c);
    } else {
      assert Opens(more[|log|].payload, c);
    }
  }

  lemma CommitmentUntouched(log: seq<Draft>, d: Draft, s: State, t: State, c: Id)
    requires CommitmentTold(log, s.commitments, c) && !Opens(d.payload, c) && !Resolves(d.payload, c)
    requires c in t.commitments <==> c in s.commitments
    requires c in s.commitments ==> t.commitments[c] == s.commitments[c]
    ensures CommitmentTold(log + [d], t.commitments, c)
  {
    OpenedSnoc(log, d, c);
    hide Opened, Resolved, ResolutionTold, OpenedAs;
    if c in s.commitments {
      OpenedAsSnoc(log, d, c, s.commitments[c], s.commitments[c].resolution);
      ResolutionSnoc(log, d, c, s.commitments[c].resolution);
    }
  }

  lemma CommitmentStepTold(log: seq<Draft>, d: Draft, s: State, t: State, c: Id)
    requires CommitmentTold(log, s.commitments, c) && (Resolved(log, c) ==> Opened(log, c))
    requires Apply(s, |log| + 1, d) == Ok(t)
    ensures CommitmentTold(log + [d], t.commitments, c) && (Resolved(log + [d], c) ==> Opened(log + [d], c))
  {
    RestFrame(s, |log| + 1, d, t);
    OpenedSnoc(log, d, c);
    hide Apply, Opened, Resolved, ResolutionTold, OpenedAs;
    if Opens(d.payload, c) || Resolves(d.payload, c) {
      CommitmentTouched(log, d, s, t, c);
    } else {
      CommitmentUntouched(log, d, s, t, c);
    }
  }

  lemma CheckpointStepTold(log: seq<Draft>, d: Draft, s: State, t: State, g: Id)
    requires CheckpointTold(log, s.checkpoints, g) && Apply(s, |log| + 1, d) == Ok(t)
    ensures CheckpointTold(log + [d], t.checkpoints, g)
  {
    RestFrame(s, |log| + 1, d, t);
    hide Apply;
    var more := log + [d];
    assert more[|log|] == d && forall i :: 0 <= i < |log| ==> more[i] == log[i];
    if Records(d.payload, g) {
      assert LastCheckpoint(more, g, |log|);
    } else if g in s.checkpoints {
      var i: nat :| LastCheckpoint(log, g, i) && s.checkpoints[g] == CheckpointRecord(log[i].payload.checkpoint, i + 1);
      assert LastCheckpoint(more, g, i);
    }
  }
}
