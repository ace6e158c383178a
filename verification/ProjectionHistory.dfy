/** What the projected view shows, told from the log: each line comes from the events that say it. */
module ProjectionHistory {
  import opened Common
  import opened Utf8Text
  import opened Kernel
  import opened KernelRuns
  import opened KernelHistory
  import opened KernelWorkers
  import opened KernelVerdict
  import Sorting
  import opened Ordering
  import opened Projection

  // One line of the view

  /** The fact as its last event said it, at the revision its corrections make. */
  ghost predicate FactShown(log: seq<Draft>, f: ViewFact) {
    exists i: nat :: LastFact(log, f.key, i) && f.value == log[i].payload.value
                     && f.revision == 1 + Corrections(log, f.key)
  }

  /** The commitment as it was opened, while nothing resolved it. */
  ghost predicate CommitmentShown(log: seq<Draft>, c: ViewCommitment) {
    !Resolved(log, c.commitmentId)
    && exists i: nat :: i < |log| && Opens(log[i].payload, c.commitmentId)
         && c.goalId == log[i].payload.goalId && c.description == log[i].payload.description
  }

  ghost predicate GoalShown(log: seq<Draft>, g: ViewGoal) {
    ActiveIn(log, g.goalId)
    && exists i: nat :: i < |log| && Activates(log[i].payload, g.goalId) && g.description == log[i].payload.description
  }

  /** The worker as it was spawned for the goal, its purpose bounded, in the status the log leaves it. */
  ghost predicate WorkerShown(log: seq<Draft>, goalId: Id, w: ViewWorker) {
    && (exists i: nat :: i < |log| && Spawns(log[i].payload, w.workerId) && log[i].payload.goalId == goalId
          && w.purpose == Truncated(log[i].payload.purpose, MAX_PROJECTED_WORKER_PURPOSE_BYTES))
    && (w.status.Running? <==> RunningIn(log, w.workerId))
    && (!w.status.Running? ==> StoppedAs(log, w.workerId, w.status))
  }

  lemma FactLine(log: seq<Draft>, s: State, k: Id)
    requires FactTold(log, s.facts, k) && k in s.facts
    ensures FactView(s, k).key == k && FactShown(log, FactView(s, k))
  {
    hide Corrections, Asserted;
    var i: nat :| LastFact(log, k, i) &&
      s.facts[k] == Fact(log[i].payload.value, 1 + Corrections(log, k), log[i].payload.authority, i + 1);
    assert LastFact(log, FactView(s, k).key, i);
  }

  lemma CommitmentLine(log: seq<Draft>, s: State, c: Id)
    requires CommitmentTold(log, s.commitments, c) && c in OpenIds(s)
    ensures CommitmentView(s, c).commitmentId == c && CommitmentShown(log, CommitmentView(s, c))
  {
    var view := CommitmentView(s, c);
    assert OpenedAs(log, c, s.commitments[c]);
    var i: nat :| i < |log| && Opens(log[i].payload, c) && s.commitments[c].goalId == log[i].payload.goalId
      && s.commitments[c].description == log[i].payload.description && s.commitments[c].openedSequence == i + 1;
    assert Opens(log[i].payload, view.commitmentId);
    assert !Resolved(log, c);
  }

  lemma WorkerLine(log: seq<Draft>, s: State, goalId: Id, w: Id)
    requires WorkerTold(log, s.workers, w) && w in s.workers && s.workers[w].goalId == goalId
    ensures WorkerView(s, w).workerId == w && WorkerShown(log, goalId, WorkerView(s, w))
  {
    hide RunningIn, StoppedAs, Truncated;
    var view := WorkerView(s, w);
    assert SpawnedAs(log, w, s.workers[w]);
    var i: nat :| i < |log| && Spawns(log[i].payload, w) && s.workers[w].goalId == log[i].payload.goalId
      && s.workers[w].purpose == log[i].payload.purpose && s.workers[w].policyEpoch == log[i].payload.policyEpoch
      && s.workers[w].dependencies == log[i].payload.dependencies && s.workers[w].spawnedSequence == i + 1;
    assert Spawns(log[i].payload, view.workerId);
  }

  // The lists

  ghost predicate FactsShown(log: seq<Draft>, facts: seq<ViewFact>) {
    && (forall f <- facts :: FactShown(log, f))
    && (forall i, j :: 0 <= i < j < |facts| ==> facts[i].key < facts[j].key)
    && (forall k: Id :: Asserted(log, k) <==> exists f :: f in facts && f.key == k)
  }

  lemma FactLines(log: seq<Draft>, s: State)
    requires forall k :: FactTold(log, s.facts, k)
    ensures FactsShown(log, Mandatory(s).facts)
  {
    var facts, keys := FactViews(s), Ascending(s.facts.Keys);
    hide FactTold, FactView, FactShown, Asserted, Ascending;
    forall i | 0 <= i < |facts| ensures facts[i].key == keys[i] && FactShown(log, facts[i]) {
      assert keys[i] in keys;
      assert FactTold(log, s.facts, keys[i]);
      FactLine(log, s, keys[i]);
    }
    forall i, j | 0 <= i < j < |facts| ensures facts[i].key < facts[j].key {
      AscendingIncreases(s.facts.Keys, i, j);
    }
    forall k: Id ensures Asserted(log, k) <==> exists f :: f in facts && f.key == k {
      KnownIffAsserted(log, s, k);
      if k in s.facts {
        FactLine(log, s, k);
        assert FactView(s, k) in facts;
      }
    }
  }

  lemma KnownIffAsserted(log: seq<Draft>, s: State, k: Id)
    requires FactTold(log, s.facts, k)
    ensures k in s.facts <==> Asserted(log, k)
  {
  }

  ghost predicate CommitmentsShownAs(log: seq<Draft>, shown: seq<ViewCommitment>) {
    && (forall c <- shown :: CommitmentShown(log, c))
    && (forall c: Id :: Opened(log, c) && !Resolved(log, c) <==> exists v :: v in shown && v.commitmentId == c)
  }

  lemma StillOpenIff(log: seq<Draft>, s: State, c: Id)
    requires CommitmentTold(log, s.commitments, c)
    ensures c in OpenIds(s) <==> Opened(log, c) && !Resolved(log, c)
  {
    hide OpenedAs, Opened, Resolved;
  }

  lemma CommitmentLines(log: seq<Draft>, s: State)
    requires forall c :: CommitmentTold(log, s.commitments, c)
    ensures CommitmentsShownAs(log, Mandatory(s).commitments)
  {
    CommitmentsShown(s);
    var shown, order := OpenCommitments(s), OpenOrder(s);
    hide CommitmentTold, CommitmentView, CommitmentShown, Opened, Resolved, OpenOrder, OpenIds, OpenedEarlier;
    forall i | 0 <= i < |shown| ensures shown[i].commitmentId == order[i] && CommitmentShown(log, shown[i]) {
      assert order[i] in order;
      assert CommitmentTold(log, s.commitments, order[i]);
      CommitmentLine(log, s, order[i]);
    }
    forall c: Id ensures Opened(log, c) && !Resolved(log, c) <==> exists v :: v in shown && v.commitmentId == c {
      StillOpenIff(log, s, c);
      if c in OpenIds(s) {
        var i :| 0 <= i < |order| && order[i] == c;
        assert shown[i] in shown;
      }
    }
  }

  ghost predicate WorkersShownAs(log: seq<Draft>, goalId: Id, shown: seq<ViewWorker>, omitted: nat) {
    && (forall w <- shown :: WorkerShown(log, goalId, w))
    && (forall w <- RunningFor(log, goalId) :: exists v :: v in shown && v.workerId == w)
    && (omitted == 0 ==> forall w: Id :: SpawnedFor(log, w, goalId) ==> exists v :: v in shown && v.workerId == w)
  }

  lemma WorkerAt(s: State, goalId: Id, i: nat) returns (w: Id)
    requires i < |WorkerViews(s, goalId)|
    ensures w in s.workers && s.workers[w].goalId == goalId && WorkerViews(s, goalId)[i] == WorkerView(s, w)
  {
    WorkersShown(s, goalId);
    var running, stopped := Ascending(RunningWorkers(s, goalId)), TerminalOrder(s, goalId);
    hide WorkerView, TerminalOrder, Ascending, SpawnedLater;
    w := if i < |running| then running[i] else stopped[i - |running|];
    assert w in running || w in stopped;
  }

  lemma ShownAt(s: State, goalId: Id, w: Id)
    requires w in s.workers && s.workers[w].goalId == goalId
    requires s.workers[w].status.Running? || OmittedWorkers(s, goalId) == 0
    ensures WorkerView(s, w) in WorkerViews(s, goalId)
  {
    WorkersShown(s, goalId);
    var shown := WorkerViews(s, goalId);
    var running, stopped := Ascending(RunningWorkers(s, goalId)), TerminalOrder(s, goalId);
    hide WorkerView, TerminalOrder, Ascending, SpawnedLater, WorkerViews, OmittedWorkers;
    if s.workers[w].status.Running? {
      assert w in running;
      var i :| 0 <= i < |running| && running[i] == w;
      assert shown[i] == WorkerView(s, w);
    } else {
      assert w in stopped;
      var i :| 0 <= i < |stopped| && stopped[i] == w;
      assert shown[|running| + i] == WorkerView(s, w);
    }
  }

  lemma WorkerLines(log: seq<Draft>, s: State, goalId: Id)
    requires forall w :: WorkerTold(log, s.workers, w) && SpawnedOnce(log, w)
    ensures WorkersShownAs(log, goalId, WorkerViews(s, goalId), OmittedWorkers(s, goalId))
  {
    hide WorkerTold, WorkerView, WorkerShown, WorkerViews, OmittedWorkers, RunningFor, SpawnedFor, SpawnedOnce;
    var shown := WorkerViews(s, goalId);
    forall v <- shown ensures WorkerShown(log, goalId, v) {
      var i :| 0 <= i < |shown| && shown[i] == v;
      var w := WorkerAt(s, goalId, i);
      assert WorkerTold(log, s.workers, w);
      WorkerLine(log, s, goalId, w);
    }
    RunningTold(log, s, goalId);
    forall w <- RunningFor(log, goalId) ensures exists v :: v in shown && v.workerId == w {
      ShownAt(s, goalId, w);
      assert WorkerTold(log, s.workers, w);
      WorkerLine(log, s, goalId, w);
    }
    if OmittedWorkers(s, goalId) == 0 {
      forall w: Id | SpawnedFor(log, w, goalId) ensures exists v :: v in shown && v.workerId == w {
        assert WorkerTold(log, s.workers, w) && SpawnedOnce(log, w);
        SpawnedForKnown(log, s, w, goalId);
        ShownAt(s, goalId, w);
        WorkerLine(log, s, goalId, w);
      }
    }
  }

  lemma SpawnedForKnown(log: seq<Draft>, s: State, w: Id, g: Id)
    requires WorkerTold(log, s.workers, w) && SpawnedOnce(log, w) && SpawnedFor(log, w, g)
    ensures w in s.workers && s.workers[w].goalId == g
  {
    hide RunningIn, StoppedAs;
    assert Spawned(log, w);
    SpawnedForTold(log, w, s.workers[w], g);
  }

  // The whole mandatory view

  ghost predicate GoalShownAs(log: seq<Draft>, goal: Option<ViewGoal>, checkpoint: Option<Checkpoint>) {
    if goal.None? then (forall g: Id :: !ActiveIn(log, g)) && checkpoint.None?
    else GoalShown(log, goal.value) && CheckpointShown(log, goal.value.goalId, checkpoint)
  }

  ghost predicate CheckpointShown(log: seq<Draft>, g: Id, checkpoint: Option<Checkpoint>) {
    if checkpoint.None? then forall i :: 0 <= i < |log| ==> !Records(log[i].payload, g)
    else exists i: nat :: LastCheckpoint(log, g, i) && checkpoint.value == log[i].payload.checkpoint
  }

  lemma GoalLine(log: seq<Draft>, s: State)
    requires (forall g :: GoalTold(log, s.goals, g)) && OneActiveGoal(s)
    requires forall g :: CheckpointTold(log, s.checkpoints, g)
    ensures GoalShownAs(log, CurrentGoal(s), CurrentCheckpoint(s))
  {
    NoneActive(log, s);
    hide ActiveIn, LastCheckpoint, Displaced;
    if s.currentGoalId.Some? {
      var g := s.currentGoalId.value;
      assert GoalTold(log, s.goals, g) && CheckpointTold(log, s.checkpoints, g);
      assert GoalFrom(log, g, s.goals[g]);
    }
  }

  /** The view of a state as the log tells it. */
  ghost predicate ShownAs(log: seq<Draft>, v: View) {
    && PolicyTold(log, Policy(v.policyEpoch, v.invariants))
    && FactsShown(log, v.facts) && CommitmentsShownAs(log, v.commitments)
    && GoalShownAs(log, v.currentGoal, v.checkpoint)
    && (v.currentGoal.Some? ==>
          WorkersShownAs(log, v.currentGoal.value.goalId, v.workers, v.omittedTerminalWorkers))
  }

  /** The mandatory part of the view shows exactly what the log says, line by line. */
  lemma ShownAsTold(log: seq<Draft>)
    requires AllWellFormed(log) && Fold(log).Ok?
    ensures ShownAs(log, Mandatory(Fold(log).value))
  {
    FoldIsHistory(log);
    var s := Fold(log).value;
    hide Fold, FactTold, GoalTold, WorkerTold, SpawnedOnce, CommitmentTold, CheckpointTold, DecisionTold, OneActiveGoal;
    hide ResultsTold, CorrectionsTold, FactsShown, CommitmentsShownAs, GoalShownAs, WorkersShownAs, FactViews;
    hide OpenCommitments, WorkerViews, OmittedWorkers, PolicyTold, Legal, Resolved, Opened;
    FactLines(log, s);
    CommitmentLines(log, s);
    GoalLine(log, s);
    if CurrentGoal(s).Some? {
      WorkerLines(log, s, CurrentGoal(s).value.goalId);
    }
  }

  // Order

  /** One sequence number comes before another, or the ids decide. */
  predicate Before(m: nat, n: nat, a: Id, b: Id) {
    m < n || (m == n && a < b)
  }

  lemma CommitmentsByOpening(s: State, i: nat, j: nat)
    requires i < j < |Mandatory(s).commitments|
    ensures var a, b := Mandatory(s).commitments[i].commitmentId, Mandatory(s).commitments[j].commitmentId;
            && a in s.commitments && b in s.commitments
            && Before(s.commitments[a].openedSequence, s.commitments[b].openedSequence, a, b)
  {
    CommitmentsShown(s);
    var order := OpenOrder(s);
    hide OpenOrder;
    assert order[i] in order && order[j] in order;
    assert OpenedEarlier(s, order[i], order[j]);
  }

  lemma StoppedBySpawning(s: State, g: Id, i: nat, j: nat)
    requires |RunningWorkers(s, g)| <= i < j < |WorkerViews(s, g)|
    ensures var a, b := WorkerViews(s, g)[i].workerId, WorkerViews(s, g)[j].workerId;
            && a in s.workers && b in s.workers && !s.workers[a].status.Running? && !s.workers[b].status.Running?
            && Before(s.workers[b].spawnedSequence, s.workers[a].spawnedSequence, a, b)
  {
    WorkersShown(s, g);
    var running, stopped := Ascending(RunningWorkers(s, g)), TerminalOrder(s, g);
    hide TerminalOrder, Ascending, WorkerViews, Truncated;
    assert stopped[i - |running|] in stopped && stopped[j - |running|] in stopped;
    assert SpawnedLater(s, stopped[i - |running|], stopped[j - |running|]);
  }

  lemma OfferedByAge(s: State, i: nat, j: nat)
    ensures var facts := SortedFacts(s);
            i < j < |facts| ==>
              Before(facts[j].acceptedSequence, facts[i].acceptedSequence, facts[i].fact.key, facts[j].fact.key)
    ensures var advisories := Sorting.Sort(s.advisories, RecordedLater);
            i < j < |advisories| ==> advisories[i].sequence >= advisories[j].sequence
  {
    CandidateOrder(s);
    hide SortedFacts, Sorting.Sort;
    var facts, advisories := SortedFacts(s), Sorting.Sort(s.advisories, RecordedLater);
    if i < j < |facts| {
      assert AcceptedLater(facts[i], facts[j]);
    }
    if i < j < |advisories| {
      assert !RecordedLater(advisories[j], advisories[i]);
    }
  }

  /**
   * The order of the view by the log's own numbers: commitments from the first opened on, stopped workers from the
   * last spawned on, and what is offered beyond the mandatory part from the last accepted or recorded on.
   */
  lemma ShownInOrder(s: State, i: nat, j: nat)
    requires i < j
    ensures var v, facts, advisories := Mandatory(s), SortedFacts(s), Sorting.Sort(s.advisories, RecordedLater);
            && (j < |v.commitments| ==>
                  var a, b := v.commitments[i].commitmentId, v.commitments[j].commitmentId;
                  a in s.commitments && b in s.commitments
                  && Before(s.commitments[a].openedSequence, s.commitments[b].openedSequence, a, b))
            && (v.currentGoal.Some? && |RunningWorkers(s, v.currentGoal.value.goalId)| <= i && j < |v.workers| ==>
                  var a, b := v.workers[i].workerId, v.workers[j].workerId;
                  a in s.workers && b in s.workers
                  && Before(s.workers[b].spawnedSequence, s.workers[a].spawnedSequence, a, b))
            && (j < |facts| ==>
                  Before(facts[j].acceptedSequence, facts[i].acceptedSequence, facts[i].fact.key, facts[j].fact.key))
            && (j < |advisories| ==> advisories[i].sequence >= advisories[j].sequence)
  {
    var v := Mandatory(s);
    hide OpenCommitments, WorkerViews, SortedFacts, FactViews, OmittedWorkers, Sorting.Sort;
    OfferedByAge(s, i, j);
    if j < |v.commitments| {
      CommitmentsByOpening(s, i, j);
    }
    if v.currentGoal.Some? && |RunningWorkers(s, v.currentGoal.value.goalId)| <= i && j < |v.workers| {
      StoppedBySpawning(s, v.currentGoal.value.goalId, i, j);
    }
  }
}
