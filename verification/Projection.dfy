/** The byte-bounded context view projected from a folded conversation. */
module Projection {
  import opened Common
  import opened Utf8Text
  import opened Kernel
  import opened KernelRuns
  import Sorting
  import opened Ordering
  import opened Decimal

  const MIN_CONTEXT_BYTES := 256
  const MAX_CONTEXT_BYTES := 65_536
  const MAX_PROJECTED_TERMINAL_WORKERS_PER_GOAL := 8
  const MAX_PROJECTED_WORKER_PURPOSE_BYTES := 256

  datatype ViewFact = ViewFact(key: Id, value: Value, revision: nat)

  datatype ViewGoal = ViewGoal(goalId: Id, description: Text)

  datatype ViewCommitment = ViewCommitment(commitmentId: Id, goalId: Id, description: Text)

  datatype ViewWorker = ViewWorker(workerId: Id, purpose: Text, status: WorkerStatus)

  datatype ViewWorkerFact = ViewWorkerFact(key: Id, value: Value, evidenceId: Id, workerId: Id)

  datatype ViewAdvisory = ViewAdvisory(episodeId: Id, text: Text, source: AdvisorySource)

  datatype View = View(
    policyEpoch: nat,
    invariants: seq<Invariant>,
    facts: seq<ViewFact>,
    currentGoal: Option<ViewGoal>,
    checkpoint: Option<Checkpoint>,
    commitments: seq<ViewCommitment>,
    workers: seq<ViewWorker>,
    omittedTerminalWorkers: nat,
    workerFacts: seq<ViewWorkerFact>,
    advisories: seq<ViewAdvisory>)

  // Serialized length. The fixed numbers are the key names, punctuation and constant strings.

  /** Serialized length of an identifier, of a text and of a JSON value, quotes included. */
  datatype Encoding = Encoding(id: Id -> nat, text: Text -> nat, value: Value -> nat)

  function Sum<T>(s: seq<T>, size: T -> nat): nat {
    if s == [] then 0 else Sum(s[..|s| - 1], size) + size(s[|s| - 1])
  }

  /** Brackets, elements and the commas between them. */
  function ListBytes<T>(s: seq<T>, size: T -> nat): nat {
    2 + Sum(s, size) + if s == [] then 0 else |s| - 1
  }

  function InvariantBytes(e: Encoding, i: Invariant): nat { 24 + e.id(i.invariantId) + e.text(i.text) }

  function FactBytes(e: Encoding, f: ViewFact): nat { 29 + e.id(f.key) + Digits(f.revision) + e.value(f.value) }

  function GoalBytes(e: Encoding, g: ViewGoal): nat { 26 + e.id(g.goalId) + e.text(g.description) }

  function OptionalTextBytes(e: Encoding, t: Option<Text>): nat {
    match t case Some(text) => e.text(text) case None => 4
  }

  function FlowStatusBytes(s: FlowStatus): nat {
    match s case FlowRouting => 9 case FlowActive => 8 case FlowCompleted => 11 case FlowFailed => 8
  }

  function CheckpointBytes(e: Encoding, c: Checkpoint): nat {
    158 + 66 + 66 + Digits(c.capabilityEpoch) + Digits(c.completedStepCount) + OptionalTextBytes(e, c.currentStep)
    + Digits(c.flowRevision) + e.id(c.goalId) + OptionalTextBytes(e, c.nodeId) + FlowStatusBytes(c.status)
    + ListBytes(c.unresolvedActionIds, e.id)
  }

  function CommitmentBytes(e: Encoding, c: ViewCommitment): nat {
    42 + e.id(c.commitmentId) + e.text(c.description) + e.id(c.goalId)
  }

  function StatusBytes(s: WorkerStatus): nat {
    match s
    case Running => 9
    case Completed => 11
    case Cancelled => 11
    case Failed => 8
    case Indeterminate => 15
    case Superseded => 12
  }

  function WorkerBytes(e: Encoding, w: ViewWorker): nat {
    70 + e.text(w.purpose) + StatusBytes(w.status) + e.id(w.workerId)
  }

  function WorkerFactBytes(e: Encoding, f: ViewWorkerFact): nat {
    114 + e.id(f.evidenceId) + e.id(f.key) + e.value(f.value) + e.id(f.workerId)
  }

  function AdvisoryBytes(e: Encoding, a: ViewAdvisory): nat {
    65 + e.id(a.episodeId) + e.text(a.text) + if a.source.FromModel? then 7 else 8
  }

  function MandatoryBytes(e: Encoding, v: View): nat {
    230 + Digits(v.policyEpoch) + Digits(v.omittedTerminalWorkers)
    + ListBytes(v.invariants, i => InvariantBytes(e, i))
    + ListBytes(v.facts, f => FactBytes(e, f))
    + (if v.currentGoal.Some? then GoalBytes(e, v.currentGoal.value) else 4)
    + (if v.checkpoint.Some? then CheckpointBytes(e, v.checkpoint.value) else 4)
    + ListBytes(v.commitments, c => CommitmentBytes(e, c))
    + ListBytes(v.workers, w => WorkerBytes(e, w))
  }

  function ViewBytes(e: Encoding, v: View): nat {
    MandatoryBytes(e, v)
    + ListBytes(v.workerFacts, f => WorkerFactBytes(e, f))
    + ListBytes(v.advisories, a => AdvisoryBytes(e, a))
  }

  // The mandatory part

  function CurrentGoal(s: State): Option<ViewGoal> {
    if s.currentGoalId.Some? && s.currentGoalId.value in s.goals
    then Some(ViewGoal(s.currentGoalId.value, s.goals[s.currentGoalId.value].description))
    else None
  }

  function CurrentCheckpoint(s: State): Option<Checkpoint> {
    if s.currentGoalId.Some? && s.currentGoalId.value in s.checkpoints
    then Some(s.checkpoints[s.currentGoalId.value].checkpoint)
    else None
  }

  function FactView(s: State, k: Id): ViewFact {
    if k in s.facts then ViewFact(k, s.facts[k].value, s.facts[k].revision) else ViewFact(k, 0, 0)
  }

  function FactViews(s: State): (r: seq<ViewFact>)
    ensures |r| == |s.facts|
    ensures forall k :: k in s.facts ==> FactView(s, k) in r
  {
    AllMapped(s.facts.Keys, k => FactView(s, k));
    Mapped(Ascending(s.facts.Keys), k => FactView(s, k))
  }

  function OpenIds(s: State): set<Id> {
    set c | c in s.commitments && s.commitments[c].resolution.None?
  }

  function OpenedAt(s: State, c: Id): nat {
    if c in s.commitments then s.commitments[c].openedSequence else 0
  }

  predicate OpenedEarlier(s: State, a: Id, b: Id) {
    OpenedAt(s, a) < OpenedAt(s, b) || (OpenedAt(s, a) == OpenedAt(s, b) && a < b)
  }

  /** The open commitments, the first opened first. */
  function OpenOrder(s: State): (r: seq<Id>)
    ensures |r| == |OpenIds(s)|
  {
    Sorting.Sort(Ascending(OpenIds(s)), (a, b) => OpenedEarlier(s, a, b))
  }

  function CommitmentView(s: State, c: Id): ViewCommitment {
    if c in s.commitments then ViewCommitment(c, s.commitments[c].goalId, s.commitments[c].description)
    else ViewCommitment(c, 0, [])
  }

  function OpenCommitments(s: State): (r: seq<ViewCommitment>)
    ensures |r| == |OpenIds(s)|
  {
    Mapped(OpenOrder(s), c => CommitmentView(s, c))
  }

  function StoppedWorkers(s: State, goalId: Id): set<Id> {
    set w | w in s.workers && s.workers[w].goalId == goalId && !s.workers[w].status.Running?
  }

  function SpawnedAt(s: State, w: Id): nat {
    if w in s.workers then s.workers[w].spawnedSequence else 0
  }

  predicate SpawnedLater(s: State, a: Id, b: Id) {
    SpawnedAt(s, a) > SpawnedAt(s, b) || (SpawnedAt(s, a) == SpawnedAt(s, b) && a < b)
  }

  /** The stopped workers of a goal, the most recently spawned first. */
  function TerminalOrder(s: State, goalId: Id): (r: seq<Id>)
    ensures |r| == |StoppedWorkers(s, goalId)|
  {
    Sorting.Sort(Ascending(StoppedWorkers(s, goalId)), (a, b) => SpawnedLater(s, a, b))
  }

  /** Every running worker, then at most eight stopped ones. */
  function ShownWorkers(s: State, goalId: Id): seq<Id> {
    var terminal := TerminalOrder(s, goalId);
    var kept := if |terminal| <= MAX_PROJECTED_TERMINAL_WORKERS_PER_GOAL
                then terminal else terminal[..MAX_PROJECTED_TERMINAL_WORKERS_PER_GOAL];
    Ascending(RunningWorkers(s, goalId)) + kept
  }

  function WorkerView(s: State, w: Id): ViewWorker {
    if w in s.workers
    then ViewWorker(w, Truncated(s.workers[w].purpose, MAX_PROJECTED_WORKER_PURPOSE_BYTES), s.workers[w].status)
    else ViewWorker(w, [], Running)
  }

  function Envelope(s: State): View {
    View(s.policy.epoch, [], [], None, None, [], [], 0, [], [])
  }

  function WorkerViews(s: State, goalId: Id): seq<ViewWorker> {
    Mapped(ShownWorkers(s, goalId), w => WorkerView(s, w))
  }

  function OmittedWorkers(s: State, goalId: Id): nat {
    var stopped := |StoppedWorkers(s, goalId)|;
    if stopped > MAX_PROJECTED_TERMINAL_WORKERS_PER_GOAL
    then stopped - MAX_PROJECTED_TERMINAL_WORKERS_PER_GOAL else 0
  }

  function Mandatory(s: State): View {
    var goal := CurrentGoal(s);
    View(s.policy.epoch, s.policy.invariants, FactViews(s), goal, CurrentCheckpoint(s), OpenCommitments(s),
         if goal.Some? then WorkerViews(s, goal.value.goalId) else [],
         if goal.Some? then OmittedWorkers(s, goal.value.goalId) else 0,
         [], [])
  }

  // Order

  lemma {:induction false} AscendingDistinct(s: set<Id>)
    ensures Sorting.Distinct(Ascending(s))
  {
    forall i, j | 0 <= i < j < |Ascending(s)| ensures Ascending(s)[i] != Ascending(s)[j] {
      AscendingIncreases(s, i, j);
    }
  }

  /** The open commitments are listed once each, strictly by the moment they were opened, then by id. */
  lemma OpenOrderStrict(s: State)
    ensures forall i, j :: 0 <= i < j < |OpenOrder(s)| ==> OpenedEarlier(s, OpenOrder(s)[i], OpenOrder(s)[j])
    ensures forall c :: c in OpenOrder(s) <==> c in OpenIds(s)
  {
    AscendingDistinct(OpenIds(s));
    Sorting.SortStrictly(Ascending(OpenIds(s)), (a, b) => OpenedEarlier(s, a, b));
    forall c ensures c in OpenOrder(s) <==> c in OpenIds(s) {
      Sorting.SortKeepsMembers(Ascending(OpenIds(s)), (a, b) => OpenedEarlier(s, a, b), c);
    }
  }

  /** The stopped workers of a goal are listed once each, strictly from the last spawned on, then by id. */
  lemma TerminalOrderStrict(s: State, goalId: Id)
    ensures var t := TerminalOrder(s, goalId);
            && (forall i, j :: 0 <= i < j < |t| ==> SpawnedLater(s, t[i], t[j]))
            && (forall w :: w in t <==> w in StoppedWorkers(s, goalId))
  {
    var stopped := StoppedWorkers(s, goalId);
    AscendingDistinct(stopped);
    Sorting.SortStrictly(Ascending(stopped), (a, b) => SpawnedLater(s, a, b));
    forall w ensures w in TerminalOrder(s, goalId) <==> w in stopped {
      Sorting.SortKeepsMembers(Ascending(stopped), (a, b) => SpawnedLater(s, a, b), w);
    }
  }

  /** The commitments shown are the open ones, in the order they were opened. */
  ghost predicate CommitmentsInOrder(s: State, shown: seq<ViewCommitment>) {
    && |shown| == |OpenOrder(s)|
    && (forall i :: 0 <= i < |shown| ==> shown[i] == CommitmentView(s, OpenOrder(s)[i]))
    && (forall i, j :: 0 <= i < j < |OpenOrder(s)| ==> OpenedEarlier(s, OpenOrder(s)[i], OpenOrder(s)[j]))
    && (forall c :: c in OpenOrder(s) <==> c in OpenIds(s))
  }

  /** The workers shown are the running ones by id, then the stopped ones from the last spawned on, at most eight. */
  ghost predicate WorkersInOrder(s: State, goalId: Id, shown: seq<ViewWorker>, omitted: nat) {
    var running, stopped := Ascending(RunningWorkers(s, goalId)), TerminalOrder(s, goalId);
    && (forall i, j :: 0 <= i < j < |stopped| ==> SpawnedLater(s, stopped[i], stopped[j]))
    && (forall w :: w in stopped <==> w in StoppedWorkers(s, goalId))
    && |shown| + omitted == |running| + |stopped| && |shown| - |running| <= MAX_PROJECTED_TERMINAL_WORKERS_PER_GOAL
    && (omitted > 0 ==> |shown| - |running| == MAX_PROJECTED_TERMINAL_WORKERS_PER_GOAL)
    && |running| <= |shown|
    && (forall i :: 0 <= i < |running| ==> shown[i] == WorkerView(s, running[i]))
    && (forall i :: |running| <= i < |shown| ==> shown[i] == WorkerView(s, stopped[i - |running|]))
  }

  lemma CommitmentsShown(s: State)
    ensures CommitmentsInOrder(s, OpenCommitments(s))
  {
    OpenOrderStrict(s);
    hide OpenOrder, CommitmentView, OpenIds, OpenedEarlier;
    var order, shown := OpenOrder(s), OpenCommitments(s);
    forall i | 0 <= i < |order| ensures shown[i] == CommitmentView(s, order[i]) {
    }
  }

  lemma WorkersShown(s: State, goalId: Id)
    ensures WorkersInOrder(s, goalId, WorkerViews(s, goalId), OmittedWorkers(s, goalId))
  {
    TerminalOrderStrict(s, goalId);
    hide WorkerView, TerminalOrder, StoppedWorkers, RunningWorkers, SpawnedLater, Ascending;
  }

  /**
   * Nothing mandatory is left out, and all of it is in its order: every invariant, every fact by its key, the open
   * commitments as they were opened, the current goal with its checkpoint, and its workers, the running ones first;
   * stopped workers beyond the eight last spawned are counted as omitted.
   */
  lemma MandatoryComplete(s: State)
    ensures var v := Mandatory(s);
      && v.policyEpoch == s.policy.epoch && v.invariants == s.policy.invariants
      && (forall k :: k in s.facts ==> FactView(s, k) in v.facts) && |v.facts| == |s.facts|
      && (forall i :: 0 <= i < |v.facts| ==> v.facts[i] == FactView(s, Ascending(s.facts.Keys)[i]))
      && CommitmentsInOrder(s, v.commitments)
      && v.currentGoal == CurrentGoal(s) && v.checkpoint == CurrentCheckpoint(s)
      && (v.currentGoal.Some? ==>
          WorkersInOrder(s, v.currentGoal.value.goalId, v.workers, v.omittedTerminalWorkers))
  {
    CommitmentsShown(s);
    var goal := CurrentGoal(s);
    if goal.Some? {
      WorkersShown(s, goal.value.goalId);
    }
    hide WorkersInOrder, CommitmentsInOrder, OpenCommitments, WorkerViews, OmittedWorkers, FactView, CurrentGoal;
  }

  // The optional part

  datatype Optional = WorkerFactItem(fact: ViewWorkerFact) | AdvisoryItem(advisory: ViewAdvisory)

  function Push(v: View, o: Optional): View {
    match o
    case WorkerFactItem(fact) => v.(workerFacts := v.workerFacts + [fact])
    case AdvisoryItem(advisory) => v.(advisories := v.advisories + [advisory])
  }

  function OptionalBytes(e: Encoding, o: Optional): nat {
    match o
    case WorkerFactItem(fact) => WorkerFactBytes(e, fact)
    case AdvisoryItem(advisory) => AdvisoryBytes(e, advisory)
  }

  /** The last current worker fact per key wins. */
  function LatestByKey(s: State, facts: seq<AcceptedFact>): (r: map<Id, AcceptedFact>)
    ensures forall k :: k in r ==> r[k] in facts && RemainsCurrent(s, r[k]) && r[k].fact.key == k
  {
    if facts == [] then map[]
    else
      var last := facts[|facts| - 1];
      var before := LatestByKey(s, facts[..|facts| - 1]);
      if RemainsCurrent(s, last) then before[last.fact.key := last] else before
  }

  predicate AcceptedLater(a: AcceptedFact, b: AcceptedFact) {
    a.acceptedSequence > b.acceptedSequence ||
    (a.acceptedSequence == b.acceptedSequence && a.fact.key < b.fact.key)
  }

  function ValuesOf(latest: map<Id, AcceptedFact>): (r: seq<AcceptedFact>)
    ensures |r| == |latest|
    ensures forall f :: f in r ==> exists k :: k in latest && latest[k] == f
  {
    var keys := Ascending(latest.Keys);
    seq(|keys|, i requires 0 <= i < |keys| => assert keys[i] in keys; latest[keys[i]])
  }

  function FactItem(f: AcceptedFact): Optional {
    WorkerFactItem(ViewWorkerFact(f.fact.key, f.fact.value, f.fact.evidenceId, f.workerId))
  }

  /** The last current fact for each key, newest first. */
  function SortedFacts(s: State): seq<AcceptedFact> {
    Sorting.Sort(ValuesOf(LatestByKey(s, s.workerFacts)), AcceptedLater)
  }

  function FactCandidates(s: State): seq<Optional> {
    var sorted := SortedFacts(s);
    seq(|sorted|, i requires 0 <= i < |sorted| => FactItem(sorted[i]))
  }

  predicate RecordedLater(a: Advisory, b: Advisory) {
    a.sequence > b.sequence || (a.sequence == b.sequence && a.episodeId < b.episodeId)
  }

  function AdvisoryCandidates(s: State): seq<Optional> {
    var sorted := Sorting.Sort(s.advisories, RecordedLater);
    seq(|sorted|, i requires 0 <= i < |sorted| => AdvisoryView(sorted[i]))
  }

  function AdvisoryView(a: Advisory): Optional {
    AdvisoryItem(ViewAdvisory(a.episodeId, a.text, a.source))
  }

  /** Optional items in priority order: worker facts, newest first, then advisories, newest first. */
  function Candidates(s: State): seq<Optional> {
    FactCandidates(s) + AdvisoryCandidates(s)
  }

  /** The fact at `i` is current and no later one with its key is. */
  ghost predicate LastCurrent(s: State, facts: seq<AcceptedFact>, key: Id, i: nat) {
    && i < |facts| && facts[i].fact.key == key && RemainsCurrent(s, facts[i])
    && forall j :: i < j < |facts| && facts[j].fact.key == key ==> !RemainsCurrent(s, facts[j])
  }

  lemma LastCurrentSnoc(s: State, facts: seq<AcceptedFact>, key: Id, i: nat)
    requires facts != [] && LastCurrent(s, facts[..|facts| - 1], key, i)
    requires var last := facts[|facts| - 1]; last.fact.key != key || !RemainsCurrent(s, last)
    ensures LastCurrent(s, facts, key, i)
  {
    hide RemainsCurrent;
    var before := facts[..|facts| - 1];
    assert facts[i] == before[i];
    forall j | i < j < |facts| && facts[j].fact.key == key ensures !RemainsCurrent(s, facts[j]) {
      assert j < |before| ==> before[j] == facts[j];
    }
  }

  /** Exactly the keys with a current fact appear, each with the last of its current facts. */
  lemma {:induction false} LatestWins(s: State, facts: seq<AcceptedFact>, key: Id)
    ensures key in LatestByKey(s, facts) <==>
            exists i :: 0 <= i < |facts| && facts[i].fact.key == key && RemainsCurrent(s, facts[i])
    ensures key in LatestByKey(s, facts) ==>
            exists i: nat :: LastCurrent(s, facts, key, i) && LatestByKey(s, facts)[key] == facts[i]
  {
    if facts != [] {
      hide RemainsCurrent;
      var n := |facts| - 1;
      var before := facts[..n];
      LatestWins(s, before, key);
      if facts[n].fact.key == key && RemainsCurrent(s, facts[n]) {
        assert LastCurrent(s, facts, key, n);
      } else {
        assert forall i :: 0 <= i < n ==> before[i] == facts[i];
        if key in LatestByKey(s, before) {
          var i: nat :| LastCurrent(s, before, key, i) && LatestByKey(s, before)[key] == before[i];
          LastCurrentSnoc(s, facts, key, i);
        }
      }
    }
  }

  lemma FactOrder()
    ensures Sorting.WeakOrder(AcceptedLater) && Sorting.WeakOrder(RecordedLater)
  {
  }

  lemma ValuesDistinct(latest: map<Id, AcceptedFact>)
    requires forall k <- latest :: latest[k].fact.key == k
    ensures Sorting.Distinct(ValuesOf(latest))
    ensures forall f :: f in ValuesOf(latest) <==> f.fact.key in latest && latest[f.fact.key] == f
    ensures Sorting.Comparable(ValuesOf(latest), AcceptedLater)
  {
    var keys, values := Ascending(latest.Keys), ValuesOf(latest);
    forall i | 0 <= i < |keys| ensures values[i].fact.key == keys[i] && keys[i] in latest {
      assert keys[i] in keys;
    }
    forall i, j | 0 <= i < j < |values| ensures values[i] != values[j] {
      AscendingIncreases(latest.Keys, i, j);
    }
    forall f: AcceptedFact | f.fact.key in latest && latest[f.fact.key] == f ensures f in values {
      assert f.fact.key in keys;
      var i :| 0 <= i < |keys| && keys[i] == f.fact.key;
      assert values[i] == f;
    }
  }

  /** The facts offered are the last current fact of each key, strictly from the last accepted on. */
  ghost predicate FactsInOrder(s: State, facts: seq<AcceptedFact>) {
    var latest := LatestByKey(s, s.workerFacts);
    && (forall i, j :: 0 <= i < j < |facts| ==> AcceptedLater(facts[i], facts[j]))
    && (forall f :: f in facts <==> f.fact.key in latest && latest[f.fact.key] == f)
  }

  lemma SortedValues(latest: map<Id, AcceptedFact>)
    requires forall k <- latest :: latest[k].fact.key == k
    ensures var r := Sorting.Sort(ValuesOf(latest), AcceptedLater);
            && (forall i, j :: 0 <= i < j < |r| ==> AcceptedLater(r[i], r[j]))
            && (forall f :: f in r <==> f.fact.key in latest && latest[f.fact.key] == f)
  {
    FactOrder();
    ValuesDistinct(latest);
    hide ValuesOf, AcceptedLater, Sorting.WeakOrder, Sorting.Distinct, Sorting.Comparable, Sorting.Sort;
    Sorting.SortStrictly(ValuesOf(latest), AcceptedLater);
    Sorting.SortSameMembers(ValuesOf(latest), AcceptedLater);
  }

  lemma FactsOffered(s: State)
    ensures FactsInOrder(s, SortedFacts(s))
  {
    hide LatestByKey, ValuesOf, AcceptedLater, Sorting.Sort;
    SortedValues(LatestByKey(s, s.workerFacts));
  }

  /**
   * The candidates in priority order: first the last current fact of each key, strictly from the last accepted on, then
   * every advisory, from the last recorded on.
   */
  lemma CandidateOrder(s: State)
    ensures var facts, advisories := SortedFacts(s), Sorting.Sort(s.advisories, RecordedLater);
            && FactsInOrder(s, facts)
            && multiset(advisories) == multiset(s.advisories) && Sorting.Ordered(advisories, RecordedLater)
            && |Candidates(s)| == |facts| + |advisories|
            && (forall i :: 0 <= i < |facts| ==>
                  var f := facts[i];
                  Candidates(s)[i] ==
                  WorkerFactItem(ViewWorkerFact(f.fact.key, f.fact.value, f.fact.evidenceId, f.workerId)))
            && (forall i :: |facts| <= i < |Candidates(s)| ==>
                  var a := advisories[i - |facts|];
                  Candidates(s)[i] == AdvisoryItem(ViewAdvisory(a.episodeId, a.text, a.source)))
  {
    FactsOffered(s);
    FactOrder();
    hide FactsInOrder, SortedFacts;
    Sorting.SortPermutes(s.advisories, RecordedLater);
    Sorting.SortOrders(s.advisories, RecordedLater);
  }

  /** Keep each item in turn if the view still fits the budget with it. */
  function Fill(e: Encoding, v: View, items: seq<Optional>, budget: nat): View
    decreases |items|
  {
    if items == [] then v
    else if ViewBytes(e, Push(v, items[0])) <= budget then Fill(e, Push(v, items[0]), items[1..], budget)
    else Fill(e, v, items[1..], budget)
  }

  datatype ProjectionError =
    | BudgetOutOfRange
    | EnvelopeTooLarge
    | ActiveWorkerOverflow
    | ControlOverflow(requiredControlBytes: nat)

  predicate TooManyActive(s: State) {
    var goal := CurrentGoal(s);
    goal.Some? && |RunningWorkers(s, goal.value.goalId)| > MAX_ACTIVE_WORKERS_PER_GOAL
  }

  function Project(e: Encoding, s: State, budget: int): Result<View, ProjectionError> {
    if budget < MIN_CONTEXT_BYTES || budget > MAX_CONTEXT_BYTES then Err(BudgetOutOfRange)
    else if ViewBytes(e, Envelope(s)) > budget then Err(EnvelopeTooLarge)
    else if TooManyActive(s) then Err(ActiveWorkerOverflow)
    else if ViewBytes(e, Mandatory(s)) > budget then Err(ControlOverflow(ViewBytes(e, Mandatory(s))))
    else Ok(Fill(e, Mandatory(s), Candidates(s), budget))
  }

  // Sizes

  lemma SumSnoc<T>(s: seq<T>, x: T, size: T -> nat)
    ensures Sum(s + [x], size) == Sum(s, size) + size(x)
  {
    assert (s + [x])[..|s|] == s;
  }

  /** Pushing an optional item adds its bytes and a comma unless its list was empty. */
  lemma PushBytes(e: Encoding, v: View, o: Optional)
    ensures ViewBytes(e, Push(v, o)) == ViewBytes(e, v) + OptionalBytes(e, o) +
              if (if o.WorkerFactItem? then v.workerFacts == [] else v.advisories == []) then 0 else 1
  {
    hide WorkerFactBytes, AdvisoryBytes;
    assert MandatoryBytes(e, Push(v, o)) == MandatoryBytes(e, v) by {
      SameMandatoryBytes(e, Push(v, o), v);
    }
    hide MandatoryBytes;
    match o
    case WorkerFactItem(fact) => SumSnoc(v.workerFacts, fact, f => WorkerFactBytes(e, f));
    case AdvisoryItem(advisory) => SumSnoc(v.advisories, advisory, a => AdvisoryBytes(e, a));
  }

  ghost predicate SameMandatory(v: View, w: View) {
    && v.policyEpoch == w.policyEpoch && v.invariants == w.invariants && v.facts == w.facts
    && v.currentGoal == w.currentGoal && v.checkpoint == w.checkpoint && v.commitments == w.commitments
    && v.workers == w.workers && v.omittedTerminalWorkers == w.omittedTerminalWorkers
  }

  lemma SameMandatoryBytes(e: Encoding, v: View, w: View)
    requires SameMandatory(v, w)
    ensures MandatoryBytes(e, v) == MandatoryBytes(e, w)
  {
  }

  /** An empty view is never larger than the mandatory one. */
  lemma EnvelopeSmallest(e: Encoding, s: State)
    ensures ViewBytes(e, Envelope(s)) <= ViewBytes(e, Mandatory(s))
  {
    hide Mandatory, CheckpointBytes;
    var v := Mandatory(s);
    assert v.policyEpoch == s.policy.epoch && v.workerFacts == [] && v.advisories == [] by {
      MandatoryShape(s);
    }
    CheckpointAtLeastNull(e, v.checkpoint);
  }

  lemma CheckpointAtLeastNull(e: Encoding, c: Option<Checkpoint>)
    ensures c.Some? ==> CheckpointBytes(e, c.value) >= 4
  {
  }

  lemma MandatoryShape(s: State)
    ensures var v := Mandatory(s); v.policyEpoch == s.policy.epoch && v.workerFacts == [] && v.advisories == []
  {
    hide FactViews, OpenCommitments, ShownWorkers, StoppedWorkers;
  }

  // What filling achieves

  ghost predicate Extends(v: View, w: View) {
    SameMandatory(v, w) && v.workerFacts <= w.workerFacts && v.advisories <= w.advisories
  }

  /** Which items the fill keeps. */
  ghost function Keeps(e: Encoding, v: View, items: seq<Optional>, budget: nat): (r: seq<bool>)
    ensures |r| == |items|
    decreases |items|
  {
    if items == [] then []
    else if ViewBytes(e, Push(v, items[0])) <= budget then [true] + Keeps(e, Push(v, items[0]), items[1..], budget)
    else [false] + Keeps(e, v, items[1..], budget)
  }

  ghost function KeptFacts(items: seq<Optional>, keep: seq<bool>): seq<ViewWorkerFact>
    requires |items| == |keep|
  {
    if items == [] then []
    else (if keep[0] && items[0].WorkerFactItem? then [items[0].fact] else []) + KeptFacts(items[1..], keep[1..])
  }

  ghost function KeptAdvisories(items: seq<Optional>, keep: seq<bool>): seq<ViewAdvisory>
    requires |items| == |keep|
  {
    if items == [] then []
    else (if keep[0] && items[0].AdvisoryItem? then [items[0].advisory] else []) + KeptAdvisories(items[1..], keep[1..])
  }

  /** Extending a view only makes an item that did not fit larger still. */
  lemma OverflowStays(e: Encoding, v: View, w: View, o: Optional, budget: nat)
    requires Extends(v, w) && ViewBytes(e, v) <= ViewBytes(e, w)
    requires ViewBytes(e, Push(v, o)) > budget
    ensures ViewBytes(e, Push(w, o)) > budget
  {
    hide ViewBytes;
    PushBytes(e, v, o);
    PushBytes(e, w, o);
  }

  lemma PushAppends(v: View, o: Optional)
    ensures Push(v, o).workerFacts == v.workerFacts + if o.WorkerFactItem? then [o.fact] else []
    ensures Push(v, o).advisories == v.advisories + if o.AdvisoryItem? then [o.advisory] else []
  {
  }

  lemma PushExtends(v: View, o: Optional, w: View)
    requires Extends(Push(v, o), w)
    ensures Extends(v, w)
  {
  }

  /** The filled view is the view with the kept items appended, fits, and has no room for any other item. */
  ghost predicate Filled(e: Encoding, v: View, items: seq<Optional>, keep: seq<bool>, w: View, budget: nat)
    requires |items| == |keep|
  {
    && Extends(v, w) && ViewBytes(e, v) <= ViewBytes(e, w) <= budget
    && w.workerFacts == v.workerFacts + KeptFacts(items, keep)
    && w.advisories == v.advisories + KeptAdvisories(items, keep)
    && forall i :: 0 <= i < |items| && !keep[i] ==> ViewBytes(e, Push(w, items[i])) > budget
  }

  lemma Regroup<T>(a: seq<T>, b: seq<T>, c: seq<T>)
    ensures a + b + c == a + (b + c)
  {
  }

  lemma KeptCons(v: View, items: seq<Optional>, keep: seq<bool>)
    requires items != [] && |items| == |keep|
    ensures var next := if keep[0] then Push(v, items[0]) else v;
            && next.workerFacts + KeptFacts(items[1..], keep[1..]) == v.workerFacts + KeptFacts(items, keep)
            && next.advisories + KeptAdvisories(items[1..], keep[1..]) == v.advisories + KeptAdvisories(items, keep)
  {
    var facts, advisories := KeptFacts(items[1..], keep[1..]), KeptAdvisories(items[1..], keep[1..]);
    var fact := if keep[0] && items[0].WorkerFactItem? then [items[0].fact] else [];
    var advisory := if keep[0] && items[0].AdvisoryItem? then [items[0].advisory] else [];
    assert KeptFacts(items, keep) == fact + facts && KeptAdvisories(items, keep) == advisory + advisories;
    hide KeptFacts, KeptAdvisories, Push;
    PushAppends(v, items[0]);
    NothingAppended(v);
    Regroup(v.workerFacts, fact, facts);
    Regroup(v.advisories, advisory, advisories);
  }

  lemma NothingAppended(v: View)
    ensures v.workerFacts + [] == v.workerFacts && v.advisories + [] == v.advisories
  {
  }

  lemma OverflowCons(e: Encoding, items: seq<Optional>, keep: seq<bool>, w: View, budget: nat)
    requires items != [] && |items| == |keep|
    requires forall i :: 0 <= i < |items[1..]| && !keep[1..][i] ==> ViewBytes(e, Push(w, items[1..][i])) > budget
    ensures forall i :: 0 < i < |items| && !keep[i] ==> ViewBytes(e, Push(w, items[i])) > budget
  {
    hide ViewBytes, Push;
    forall i | 0 < i < |items| && !keep[i] ensures ViewBytes(e, Push(w, items[i])) > budget {
      assert keep[i] == keep[1..][i - 1] && items[i] == items[1..][i - 1];
    }
  }

  lemma FilledKept(e: Encoding, v: View, items: seq<Optional>, keep: seq<bool>, w: View, budget: nat)
    requires items != [] && |items| == |keep| && keep[0]
    requires Filled(e, Push(v, items[0]), items[1..], keep[1..], w, budget)
    ensures Filled(e, v, items, keep, w, budget)
  {
    hide ViewBytes, Push, OptionalBytes, Extends, KeptFacts, KeptAdvisories;
    PushBytes(e, v, items[0]);
    PushExtends(v, items[0], w);
    KeptCons(v, items, keep);
    OverflowCons(e, items, keep, w, budget);
  }

  lemma FilledSkipped(e: Encoding, v: View, items: seq<Optional>, keep: seq<bool>, w: View, budget: nat)
    requires items != [] && |items| == |keep| && !keep[0] && ViewBytes(e, Push(v, items[0])) > budget
    requires Filled(e, v, items[1..], keep[1..], w, budget)
    ensures Filled(e, v, items, keep, w, budget)
  {
    hide ViewBytes, Push, OptionalBytes, Extends, KeptFacts, KeptAdvisories;
    OverflowStays(e, v, w, items[0], budget);
    KeptCons(v, items, keep);
    OverflowCons(e, items, keep, w, budget);
  }

  lemma FilledNone(e: Encoding, v: View, budget: nat)
    requires ViewBytes(e, v) <= budget
    ensures Filled(e, v, [], [], v, budget)
  {
    hide ViewBytes;
  }

  lemma {:induction false} FillAchieves(e: Encoding, v: View, items: seq<Optional>, budget: nat)
    requires ViewBytes(e, v) <= budget
    ensures Filled(e, v, items, Keeps(e, v, items, budget), Fill(e, v, items, budget), budget)
    decreases |items|
  {
    hide ViewBytes, Push, Filled;
    if items == [] {
      FilledNone(e, v, budget);
    } else {
      var next, keep := Push(v, items[0]), Keeps(e, v, items, budget);
      if ViewBytes(e, next) <= budget {
        FillAchieves(e, next, items[1..], budget);
        assert keep[1..] == Keeps(e, next, items[1..], budget);
        FilledKept(e, v, items, keep, Fill(e, v, items, budget), budget);
      } else {
        FillAchieves(e, v, items[1..], budget);
        assert keep[1..] == Keeps(e, v, items[1..], budget);
        FilledSkipped(e, v, items, keep, Fill(e, v, items, budget), budget);
      }
    }
  }

  /**
   * With a valid budget and a reachable state, projection fails exactly when the mandatory control
   * state alone exceeds the budget. Otherwise the view carries all of it and fits; the optional
   * items in it are the kept candidates in priority order, and no candidate left out would fit
   * even in the finished view.
   */
  lemma BoundedProjection(e: Encoding, s: State, budget: nat)
    requires MIN_CONTEXT_BYTES <= budget <= MAX_CONTEXT_BYTES && WorkersBounded(s)
    ensures Project(e, s, budget).Err? <==> ViewBytes(e, Mandatory(s)) > budget
    ensures Project(e, s, budget) != Err(ActiveWorkerOverflow)
    ensures Project(e, s, budget).Ok? ==>
      var v := Project(e, s, budget).value;
      var keep := Keeps(e, Mandatory(s), Candidates(s), budget);
      && Extends(Mandatory(s), v) && ViewBytes(e, v) <= budget
      && v.workerFacts == KeptFacts(Candidates(s), keep)
      && v.advisories == KeptAdvisories(Candidates(s), keep)
      && forall i :: 0 <= i < |Candidates(s)| && !keep[i] ==> ViewBytes(e, Push(v, Candidates(s)[i])) > budget
  {
    hide ViewBytes, Candidates, Mandatory, RunningWorkers;
    EnvelopeSmallest(e, s);
    MandatoryShape(s);
    if ViewBytes(e, Mandatory(s)) <= budget {
      FillAchieves(e, Mandatory(s), Candidates(s), budget);
    }
  }

  // What may be shown

  lemma {:induction false} KeptAreCandidates(items: seq<Optional>, keep: seq<bool>, x: ViewWorkerFact)
    requires |items| == |keep| && x in KeptFacts(items, keep)
    ensures WorkerFactItem(x) in items
  {
    if items != [] {
      if x in KeptFacts(items[1..], keep[1..]) {
        KeptAreCandidates(items[1..], keep[1..], x);
      }
    }
  }

  lemma FactCandidateOrigin(s: State, x: ViewWorkerFact)
    requires WorkerFactItem(x) in Candidates(s)
    ensures exists f :: f in s.workerFacts && RemainsCurrent(s, f) && FactItem(f) == WorkerFactItem(x)
  {
    var values := ValuesOf(LatestByKey(s, s.workerFacts));
    var sorted := Sorting.Sort(values, AcceptedLater);
    assert WorkerFactItem(x) in FactCandidates(s) by {
      forall a | a in AdvisoryCandidates(s) ensures a.AdvisoryItem? {
      }
    }
    var i :| 0 <= i < |sorted| && FactItem(sorted[i]) == WorkerFactItem(x);
    Sorting.SortKeepsMembers(values, AcceptedLater, sorted[i]);
    assert sorted[i] in values;
  }

  /**
   * Every worker fact in a projection of a log was accepted for the current goal, and since its
   * worker was spawned no policy advance and no correction of any of its dependencies was logged.
   */
  lemma ShownFactsAreFresh(e: Encoding, drafts: seq<Draft>, budget: nat, x: ViewWorkerFact)
    requires Fold(drafts).Ok? && AllWellFormed(drafts)
    requires Project(e, Fold(drafts).value, budget).Ok? && x in Project(e, Fold(drafts).value, budget).value.workerFacts
    ensures var s := Fold(drafts).value;
            exists f :: f in s.workerFacts &&
              x == ViewWorkerFact(f.fact.key, f.fact.value, f.fact.evidenceId, f.workerId) &&
              s.currentGoalId == Some(f.goalId) && f.workerId in s.workers &&
              SpawnedBy(drafts, f.workerId, s.workers[f.workerId]) &&
              Undisturbed(drafts, s.workers[f.workerId].spawnedSequence, s.workers[f.workerId].dependencies)
  {
    var s := Fold(drafts).value;
    hide ViewBytes, Candidates, Mandatory, Undisturbed, SpawnedBy, RemainsCurrent, TooManyActive, Fold;
    ReachableShape(drafts);
    BoundedProjection(e, s, budget);
    KeptAreCandidates(Candidates(s), Keeps(e, Mandatory(s), Candidates(s), budget), x);
    FactCandidateOrigin(s, x);
    var f :| f in s.workerFacts && RemainsCurrent(s, f) && FactItem(f) == WorkerFactItem(x);
    NoStaleWorkerFact(drafts, f);
  }

  // The projection as the program runs it

  method CollectLatest(s: State) returns (latest: map<Id, AcceptedFact>)
    ensures latest == LatestByKey(s, s.workerFacts)
  {
    hide RemainsCurrent;
    latest := map[];
    for i := 0 to |s.workerFacts|
      invariant latest == LatestByKey(s, s.workerFacts[..i])
    {
      assert s.workerFacts[..i + 1][..i] == s.workerFacts[..i];
      if RemainsCurrent(s, s.workerFacts[i]) {
        latest := latest[s.workerFacts[i].fact.key := s.workerFacts[i]];
      }
    }
    assert s.workerFacts[..|s.workerFacts|] == s.workerFacts;
  }

  /** Push, measure, and undo if the budget is exceeded. */
  method TryAll(e: Encoding, v: View, items: seq<Optional>, budget: nat) returns (w: View)
    ensures w == Fill(e, v, items, budget)
  {
    hide ViewBytes;
    w := v;
    var i := 0;
    while i < |items|
      invariant 0 <= i <= |items|
      invariant Fill(e, v, items, budget) == Fill(e, w, items[i..], budget)
    {
      assert items[i..][1..] == items[i + 1..];
      var pushed := Push(w, items[i]);
      if ViewBytes(e, pushed) <= budget {
        w := pushed;
      }
      i := i + 1;
    }
  }

  lemma {:induction false} FillConcat(e: Encoding, v: View, xs: seq<Optional>, ys: seq<Optional>, budget: nat)
    ensures Fill(e, v, xs + ys, budget) == Fill(e, Fill(e, v, xs, budget), ys, budget)
    decreases |xs|
  {
    hide ViewBytes;
    if xs == [] {
      assert xs + ys == ys;
    } else {
      assert (xs + ys)[1..] == xs[1..] + ys;
      if ViewBytes(e, Push(v, xs[0])) <= budget {
        FillConcat(e, Push(v, xs[0]), xs[1..], ys, budget);
      } else {
        FillConcat(e, v, xs[1..], ys, budget);
      }
    }
  }

  method ProjectConversationContext(e: Encoding, s: State, byteBudget: int) returns (r: Result<View, ProjectionError>)
    ensures r == Project(e, s, byteBudget)
    ensures r.Ok? ==> ViewBytes(e, r.value) <= byteBudget
  {
    hide ViewBytes, Mandatory, TooManyActive, LatestByKey, Envelope;
    if byteBudget < MIN_CONTEXT_BYTES || byteBudget > MAX_CONTEXT_BYTES { return Err(BudgetOutOfRange); }
    if ViewBytes(e, Envelope(s)) > byteBudget { return Err(EnvelopeTooLarge); }
    if TooManyActive(s) { return Err(ActiveWorkerOverflow); }
    var view := Mandatory(s);
    var requiredControlBytes := ViewBytes(e, view);
    if requiredControlBytes > byteBudget { return Err(ControlOverflow(requiredControlBytes)); }
    var latest := CollectLatest(s);
    var sorted := Sorting.Sort(ValuesOf(latest), AcceptedLater);
    var factItems := seq(|sorted|, i requires 0 <= i < |sorted| => FactItem(sorted[i]));
    assert factItems == FactCandidates(s);
    FillConcat(e, view, FactCandidates(s), AdvisoryCandidates(s), byteBudget);
    FillAchieves(e, view, Candidates(s), byteBudget);
    view := TryAll(e, view, factItems, byteBudget);
    view := TryAll(e, view, AdvisoryCandidates(s), byteBudget);
    r := Ok(view);
  }
}
