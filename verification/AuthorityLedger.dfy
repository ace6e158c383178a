/** The authority client's ledger: which gateway operations were started, what became of them, what is retained. */
module AuthorityLedger {
  import opened Common

  type Id = nat

  const MAX_TRACKED_CALLS: nat := 10_000
  const MAX_IN_FLIGHT_CALLS: nat := 128

  datatype ProviderKey = ProviderKey(provider: Id, callId: Id)

  /** A provider call with the response and item it came from; its RPC id is a digest of all of it. */
  datatype Identity = Identity(key: ProviderKey, provenance: Id)

  /** An operation ends in a result or an error; an error says whether execution may have started. */
  datatype Outcome =
    | Result(value: Id)
    | Failure(error: Id, indeterminate: bool, executionStarted: Option<bool>)

  datatype Status =
    | Pending
    | Settled(outcome: Outcome)
    | Evicted(indeterminate: bool, executionStarted: Option<bool>)

  datatype Entry = Entry(fingerprint: Id, status: Status, retained: nat)

  datatype Ledger = Ledger(
    calls: map<Identity, Entry>, identities: map<ProviderKey, Identity>, order: seq<Identity>,
    retainedBytes: int, inFlight: int, closed: bool)

  datatype Answer =
    | Closed
    | IdentityConflict
    | Joined
    | Replayed(outcome: Outcome)
    | Gone(indeterminate: bool, executionStarted: Option<bool>)
    | IdentityLimit
    | InFlightLimit
    | Started

  function NewLedger(): Ledger {
    Ledger(map[], map[], [], 0, 0, false)
  }

  function Call(s: Ledger, id: Identity, fingerprint: Id): (Ledger, Answer) {
    if s.closed then (s, Closed)
    else if id.key in s.identities && s.identities[id.key] != id then (s, IdentityConflict)
    else if id in s.calls then
      var prior := s.calls[id];
      (s, if prior.fingerprint != fingerprint then IdentityConflict
          else match prior.status
               case Pending => Joined
               case Settled(outcome) => Replayed(outcome)
               case Evicted(indeterminate, started) => Gone(indeterminate, started))
    else if |s.calls| >= MAX_TRACKED_CALLS then (s, IdentityLimit)
    else if s.inFlight >= MAX_IN_FLIGHT_CALLS then (s, InFlightLimit)
    else
      (s.(identities := s.identities[id.key := id], calls := s.calls[id := Entry(fingerprint, Pending, 0)],
          inFlight := s.inFlight + 1),
       Started)
  }

  /** What is remembered of an outcome that is no longer retained: a result certainly ran. */
  function Forgotten(outcome: Outcome): Status {
    match outcome
    case Result(_) => Evicted(true, Some(true))
    case Failure(_, indeterminate, started) => Evicted(indeterminate, started)
  }

  /** Drops the oldest retained outcomes until the retained bytes fit. */
  function Evict(s: Ledger, cap: nat): (r: Ledger)
    ensures r.order == [] || r.retainedBytes <= cap
    decreases |s.order|
  {
    if s.retainedBytes <= cap || s.order == [] then s else Evict(EvictPass(s), cap)
  }

  /** One pass of the eviction loop: an entry that is not settled is skipped. */
  function EvictPass(s: Ledger): Ledger
    requires s.order != []
  {
    if s.order[0] !in s.calls || !s.calls[s.order[0]].status.Settled? then s.(order := s.order[1..]) else EvictOne(s)
  }

  function EvictOne(s: Ledger): Ledger
    requires s.order != [] && s.order[0] in s.calls && s.calls[s.order[0]].status.Settled?
  {
    var oldest := s.calls[s.order[0]];
    s.(order := s.order[1..], retainedBytes := s.retainedBytes - oldest.retained,
       calls := s.calls[s.order[0] := oldest.(status := Forgotten(oldest.status.outcome), retained := 0)])
  }

  function Retained(s: Ledger, id: Identity, outcome: Outcome, bytes: nat): Ledger
    requires id in s.calls
  {
    s.(calls := s.calls[id := s.calls[id].(status := Settled(outcome), retained := bytes)],
       inFlight := s.inFlight - 1, retainedBytes := s.retainedBytes + bytes, order := s.order + [id])
  }

  /** The operation of a pending call ends. */
  function Settle(s: Ledger, cap: nat, id: Identity, outcome: Outcome, bytes: nat): Ledger
    requires id in s.calls
  {
    Evict(Retained(s, id, outcome, bytes), cap)
  }

  // Runs

  datatype Action =
    | Invoke(id: Identity, fingerprint: Id)
    | Complete(id: Identity, outcome: Outcome, bytes: nat)
    | Close

  /** `started` lists the operations begun, `outcomes` what each ended in. */
  datatype World = World(ledger: Ledger, started: seq<Identity>, outcomes: map<Identity, Outcome>)

  function Step(cap: nat, w: World, a: Action): World {
    match a
    case Invoke(id, fingerprint) =>
      var (next, answer) := Call(w.ledger, id, fingerprint);
      World(next, if answer == Started then w.started + [id] else w.started, w.outcomes)
    case Complete(id, outcome, bytes) =>
      if id !in w.ledger.calls || !w.ledger.calls[id].status.Pending? then w
      else World(Settle(w.ledger, cap, id, outcome, bytes), w.started, w.outcomes[id := outcome])
    case Close => w.(ledger := w.ledger.(closed := true))
  }

  function Run(cap: nat, actions: seq<Action>): World {
    if actions == [] then World(NewLedger(), [], map[])
    else Step(cap, Run(cap, actions[..|actions| - 1]), actions[|actions| - 1])
  }

  // What every run keeps

  function PendingIds(calls: map<Identity, Entry>): set<Identity> {
    set id | id in calls && calls[id].status.Pending?
  }

  function SumRetained(calls: map<Identity, Entry>, order: seq<Identity>): nat {
    if order == [] then 0
    else
      SumRetained(calls, order[..|order| - 1]) +
      if order[|order| - 1] in calls then calls[order[|order| - 1]].retained else 0
  }

  /** The settlement order lists every retained outcome exactly once. */
  ghost predicate OrderExact(s: Ledger) {
    && (forall i, k :: 0 <= i < k < |s.order| ==> s.order[i] != s.order[k])
    && (forall id :: id in s.order <==> id in s.calls && s.calls[id].status.Settled?)
  }

  ghost predicate Counted(s: Ledger) {
    && s.inFlight == |PendingIds(s.calls)| <= MAX_IN_FLIGHT_CALLS
    && |s.calls| <= MAX_TRACKED_CALLS
    && s.retainedBytes == SumRetained(s.calls, s.order)
  }

  /** The tracked calls are those started, each provider call once. */
  ghost predicate StartedOnce(started: seq<Identity>, calls: map<Identity, Entry>) {
    && (forall i, k :: 0 <= i < k < |started| ==> started[i].key != started[k].key)
    && forall id :: id in started <==> id in calls
  }

  /** The identity recorded for a provider call is the one tracked. */
  ghost predicate Bound(identities: map<ProviderKey, Identity>, calls: map<Identity, Entry>) {
    && (forall id <- calls :: id.key in identities && identities[id.key] == id)
    && forall key <- identities :: identities[key] in calls && identities[key].key == key
  }

  /** What the ledger says of a call agrees with how it ended. */
  ghost predicate Truthful(calls: map<Identity, Entry>, outcomes: map<Identity, Outcome>) {
    && (forall id <- outcomes :: id in calls)
    && forall id <- calls :: StatusTrue(calls[id].status, id, outcomes)
  }

  ghost predicate History(w: World) {
    && StartedOnce(w.started, w.ledger.calls)
    && Bound(w.ledger.identities, w.ledger.calls)
    && Truthful(w.ledger.calls, w.outcomes)
  }

  ghost predicate StatusTrue(status: Status, id: Identity, outcomes: map<Identity, Outcome>) {
    match status
    case Pending => id !in outcomes
    case Settled(outcome) => id in outcomes && outcomes[id] == outcome
    case Evicted(_, _) => id in outcomes && status == Forgotten(outcomes[id])
  }

  ghost predicate Sound(cap: nat, w: World) {
    OrderExact(w.ledger) && Counted(w.ledger) && History(w) && w.ledger.retainedBytes <= cap
  }

  // Sums

  lemma {:induction false} SumSame(calls: map<Identity, Entry>, other: map<Identity, Entry>, order: seq<Identity>)
    requires forall id <- order :: id in calls && id in other && calls[id].retained == other[id].retained
    ensures SumRetained(calls, order) == SumRetained(other, order)
  {
    if order != [] {
      SumSame(calls, other, order[..|order| - 1]);
    }
  }

  lemma {:induction false} SumFirst(calls: map<Identity, Entry>, order: seq<Identity>)
    requires order != [] && order[0] in calls
    ensures SumRetained(calls, order) == calls[order[0]].retained + SumRetained(calls, order[1..])
  {
    var n := |order| - 1;
    if n > 0 {
      SumFirst(calls, order[..n]);
      assert order[..n][1..] == order[1..][..n - 1];
    } else {
      assert order[..n] == [] && order[1..] == [];
    }
  }

  // Eviction

  /** What eviction works on: everything the invariant says but the byte cap. */
  ghost predicate Evictable(s: Ledger) {
    OrderExact(s) && Counted(s)
  }

  lemma EvictOneKeeps(s: Ledger)
    requires Evictable(s) && s.order != []
    ensures s.order[0] in s.calls && s.calls[s.order[0]].status.Settled?
    ensures Evictable(EvictOne(s))
  {
    assert s.order[0] in s.order;
    EvictOneOrder(s);
    EvictOneCounts(s);
  }

  lemma EvictOneOrder(s: Ledger)
    requires OrderExact(s) && s.order != [] && s.order[0] in s.calls && s.calls[s.order[0]].status.Settled?
    ensures OrderExact(EvictOne(s))
  {
    var next := EvictOne(s);
    forall id ensures id in next.order <==> id in next.calls && next.calls[id].status.Settled? {
      assert s.order == [s.order[0]] + s.order[1..];
    }
  }

  lemma EvictOneCounts(s: Ledger)
    requires OrderExact(s) && Counted(s) && s.order != []
    requires s.order[0] in s.calls && s.calls[s.order[0]].status.Settled?
    ensures Counted(EvictOne(s))
  {
    var next := EvictOne(s);
    assert PendingIds(next.calls) == PendingIds(s.calls);
    assert next.calls.Keys == s.calls.Keys;
    assert |next.calls| == |next.calls.Keys| == |s.calls.Keys| == |s.calls|;
    SumFirst(s.calls, s.order);
    SumSame(s.calls, next.calls, next.order);
  }

  /** Entries only lose their outcome, and then keep what it said about execution. */
  ghost predicate OnlyForgets(before: map<Identity, Entry>, after: map<Identity, Entry>) {
    && after.Keys == before.Keys
    && forall id <- before ::
         || after[id] == before[id]
         || (before[id].status.Settled? && after[id].status == Forgotten(before[id].status.outcome)
             && after[id].fingerprint == before[id].fingerprint)
  }

  lemma {:induction false} EvictKeeps(s: Ledger, cap: nat)
    requires Evictable(s)
    ensures var r := Evict(s, cap);
            Evictable(r) && OnlyForgets(s.calls, r.calls) && r.retainedBytes <= cap
            && r.identities == s.identities && r.closed == s.closed
    decreases |s.order|
  {
    if s.retainedBytes > cap && s.order != [] {
      EvictOneKeeps(s);
      EvictKeeps(EvictOne(s), cap);
    }
  }

  lemma RetainedKeeps(s: Ledger, id: Identity, outcome: Outcome, bytes: nat)
    requires Evictable(s) && id in s.calls && s.calls[id].status.Pending?
    ensures Evictable(Retained(s, id, outcome, bytes))
  {
    var next := Retained(s, id, outcome, bytes);
    assert id !in s.order;
    assert PendingIds(next.calls) == PendingIds(s.calls) - {id};
    assert next.calls.Keys == s.calls.Keys;
    assert |next.calls| == |next.calls.Keys| == |s.calls.Keys| == |s.calls|;
    assert next.order[..|s.order|] == s.order;
    SumSame(s.calls, next.calls, s.order);
  }

  // Steps

  lemma StartKeepsCounts(calls: map<Identity, Entry>, id: Identity, fingerprint: Id)
    requires id !in calls
    ensures var next := calls[id := Entry(fingerprint, Pending, 0)];
            |next| == |calls| + 1 && |PendingIds(next)| == |PendingIds(calls)| + 1
  {
    var next := calls[id := Entry(fingerprint, Pending, 0)];
    assert next.Keys == calls.Keys + {id};
    assert |next| == |next.Keys| && |calls| == |calls.Keys|;
    forall c ensures c in PendingIds(next) <==> c in PendingIds(calls) + {id} {
    }
    assert PendingIds(next) == PendingIds(calls) + {id} && id !in PendingIds(calls);
  }

  lemma StartKeepsLedger(s: Ledger, id: Identity, fingerprint: Id)
    requires Evictable(s) && Call(s, id, fingerprint).1 == Started
    ensures Evictable(Call(s, id, fingerprint).0)
  {
    hide PendingIds, SumRetained;
    StartKeepsCounts(s.calls, id, fingerprint);
    SumSame(s.calls, s.calls[id := Entry(fingerprint, Pending, 0)], s.order);
  }

  lemma BoundKnown(identities: map<ProviderKey, Identity>, calls: map<Identity, Entry>, key: ProviderKey)
    requires Bound(identities, calls)
    ensures key in identities ==> identities[key] in calls
  {
  }

  lemma StartedNext(started: seq<Identity>, calls: map<Identity, Entry>, id: Identity, entry: Entry)
    requires StartedOnce(started, calls) && forall c <- calls :: c.key != id.key
    ensures StartedOnce(started + [id], calls[id := entry])
  {
    var more := started + [id];
    forall i, k | 0 <= i < k < |more| ensures more[i].key != more[k].key {
      if k == |started| {
        assert started[i] in started;
      }
    }
  }

  lemma BoundNext(identities: map<ProviderKey, Identity>, calls: map<Identity, Entry>, id: Identity, entry: Entry)
    requires Bound(identities, calls) && id.key !in identities
    ensures Bound(identities[id.key := id], calls[id := entry])
  {
  }

  lemma TruthfulNext(calls: map<Identity, Entry>, outcomes: map<Identity, Outcome>, id: Identity, fingerprint: Id)
    requires Truthful(calls, outcomes) && id !in calls
    ensures Truthful(calls[id := Entry(fingerprint, Pending, 0)], outcomes)
  {
  }

  lemma StartKeepsHistory(w: World, id: Identity, fingerprint: Id)
    requires History(w) && Call(w.ledger, id, fingerprint).1 == Started
    ensures History(World(Call(w.ledger, id, fingerprint).0, w.started + [id], w.outcomes))
  {
    var calls, identities := w.ledger.calls, w.ledger.identities;
    assert forall c <- calls :: c.key in identities;
    hide StartedOnce, Bound, Truthful;
    BoundKnown(identities, calls, id.key);
    StartedNext(w.started, calls, id, Entry(fingerprint, Pending, 0));
    BoundNext(identities, calls, id, Entry(fingerprint, Pending, 0));
    TruthfulNext(calls, w.outcomes, id, fingerprint);
  }

  lemma RetainedTruthful(s: Ledger, id: Identity, outcome: Outcome, bytes: nat, outcomes: map<Identity, Outcome>)
    requires Truthful(s.calls, outcomes) && id in s.calls
    ensures Truthful(Retained(s, id, outcome, bytes).calls, outcomes[id := outcome])
  {
    var next := Retained(s, id, outcome, bytes).calls;
    forall c <- next ensures StatusTrue(next[c].status, c, outcomes[id := outcome]) {
      assert c in s.calls && StatusTrue(s.calls[c].status, c, outcomes);
    }
  }

  lemma ForgottenTruthful(before: map<Identity, Entry>, after: map<Identity, Entry>, outcomes: map<Identity, Outcome>)
    requires Truthful(before, outcomes) && OnlyForgets(before, after)
    ensures Truthful(after, outcomes)
  {
    forall c <- after ensures StatusTrue(after[c].status, c, outcomes) {
      assert c in before && StatusTrue(before[c].status, c, outcomes);
    }
  }

  /** Tracking depends only on which calls are tracked. */
  lemma SameCallsHistory(started: seq<Identity>, identities: map<ProviderKey, Identity>, before: map<Identity, Entry>,
                         after: map<Identity, Entry>)
    requires StartedOnce(started, before) && Bound(identities, before) && after.Keys == before.Keys
    ensures StartedOnce(started, after) && Bound(identities, after)
  {
  }

  lemma SettleKeeps(cap: nat, w: World, id: Identity, outcome: Outcome, bytes: nat)
    requires Sound(cap, w) && id in w.ledger.calls && w.ledger.calls[id].status.Pending?
    ensures Sound(cap, Step(cap, w, Complete(id, outcome, bytes)))
  {
    var kept := Retained(w.ledger, id, outcome, bytes);
    RetainedKeeps(w.ledger, id, outcome, bytes);
    RetainedTruthful(w.ledger, id, outcome, bytes, w.outcomes);
    hide Evict, OrderExact, Counted, StartedOnce, Bound, Truthful;
    EvictKeeps(kept, cap);
    var next := Evict(kept, cap);
    assert kept.calls.Keys == w.ledger.calls.Keys;
    ForgottenTruthful(kept.calls, next.calls, w.outcomes[id := outcome]);
    SameCallsHistory(w.started, w.ledger.identities, w.ledger.calls, next.calls);
  }

  lemma StepKeeps(cap: nat, w: World, a: Action)
    requires Sound(cap, w)
    ensures Sound(cap, Step(cap, w, a))
  {
    hide OrderExact, Counted, History, Settle;
    match a
    case Invoke(id, fingerprint) =>
      if Call(w.ledger, id, fingerprint).1 == Started {
        StartKeepsLedger(w.ledger, id, fingerprint);
        StartKeepsHistory(w, id, fingerprint);
      }
    case Complete(id, outcome, bytes) =>
      if id in w.ledger.calls && w.ledger.calls[id].status.Pending? {
        SettleKeeps(cap, w, id, outcome, bytes);
      }
    case Close => CloseKeeps(cap, w);
  }

  lemma CloseKeeps(cap: nat, w: World)
    requires Sound(cap, w)
    ensures Sound(cap, w.(ledger := w.ledger.(closed := true)))
  {
  }

  lemma {:induction false} RunSound(cap: nat, actions: seq<Action>)
    ensures Sound(cap, Run(cap, actions))
  {
    if actions != [] {
      hide Sound, Step;
      RunSound(cap, actions[..|actions| - 1]);
      StepKeeps(cap, Run(cap, actions[..|actions| - 1]), actions[|actions| - 1]);
    } else {
      assert PendingIds(map[]) == {};
    }
  }

  // Main results

  /** Over every run each provider call starts at most one operation, even after its outcome was evicted. */
  lemma DispatchedOnce(cap: nat, actions: seq<Action>, i: nat, k: nat)
    requires i < k < |Run(cap, actions).started|
    ensures Run(cap, actions).started[i].key != Run(cap, actions).started[k].key
  {
    hide Run;
    RunSound(cap, actions);
  }

  /**
   * In every reachable state the in-flight counter is the number of pending calls, the retained bytes are the sum over
   * the retained outcomes, which the settlement order lists once each, and they are within the cap.
   */
  lemma AccountsExact(cap: nat, actions: seq<Action>)
    ensures var s := Run(cap, actions).ledger;
            && s.inFlight == |PendingIds(s.calls)| <= MAX_IN_FLIGHT_CALLS && |s.calls| <= MAX_TRACKED_CALLS
            && s.retainedBytes == SumRetained(s.calls, s.order) <= cap
            && OrderExact(s)
  {
    hide Run;
    RunSound(cap, actions);
  }

  /** Action `j` starts an operation. */
  predicate StartsAt(cap: nat, actions: seq<Action>, j: nat)
    requires j < |actions|
  {
    actions[j].Invoke? && Call(Run(cap, actions[..j]).ledger, actions[j].id, actions[j].fingerprint).1 == Started
  }

  /** Every operation begun was begun by an invocation that started it. */
  lemma {:induction false} StartedByInvoke(cap: nat, actions: seq<Action>, id: Identity)
    requires id in Run(cap, actions).started
    ensures exists j :: 0 <= j < |actions| && StartsAt(cap, actions, j) && actions[j].id == id
  {
    var n := |actions| - 1;
    var before := actions[..n];
    if id in Run(cap, before).started {
      StartedByInvoke(cap, before, id);
      var j :| 0 <= j < n && StartsAt(cap, before, j) && before[j].id == id;
      assert before[..j] == actions[..j];
      assert StartsAt(cap, actions, j);
    } else {
      assert StartsAt(cap, actions, n);
    }
  }

  ghost predicate TrackedAs(calls: map<Identity, Entry>, id: Identity, fingerprint: Id) {
    id in calls && calls[id].fingerprint == fingerprint
  }

  lemma CallKeepsFingerprint(s: Ledger, other: Identity, said: Id, id: Identity, fingerprint: Id)
    requires TrackedAs(s.calls, id, fingerprint)
    ensures TrackedAs(Call(s, other, said).0.calls, id, fingerprint)
  {
  }

  lemma SettleKeepsFingerprint(s: Ledger, cap: nat, settled: Identity, outcome: Outcome, bytes: nat, id: Identity,
                               fingerprint: Id)
    requires Evictable(s) && settled in s.calls && s.calls[settled].status.Pending?
    requires TrackedAs(s.calls, id, fingerprint)
    ensures TrackedAs(Settle(s, cap, settled, outcome, bytes).calls, id, fingerprint)
  {
    RetainedKeeps(s, settled, outcome, bytes);
    hide Evict, Evictable;
    EvictKeeps(Retained(s, settled, outcome, bytes), cap);
  }

  lemma StepKeepsFingerprint(cap: nat, w: World, a: Action, id: Identity, fingerprint: Id)
    requires Sound(cap, w) && TrackedAs(w.ledger.calls, id, fingerprint)
    ensures TrackedAs(Step(cap, w, a).ledger.calls, id, fingerprint)
  {
    hide OrderExact, Counted, History, Call, Settle, TrackedAs;
    match a
    case Invoke(other, said) => CallKeepsFingerprint(w.ledger, other, said, id, fingerprint);
    case Complete(other, outcome, bytes) =>
      if other in w.ledger.calls && w.ledger.calls[other].status.Pending? {
        SettleKeepsFingerprint(w.ledger, cap, other, outcome, bytes, id, fingerprint);
      }
    case Close =>
  }

  /** A call is tracked ever after under the fingerprint of the invocation that started it. */
  lemma {:induction false} FingerprintKept(cap: nat, actions: seq<Action>, j: nat)
    requires j < |actions| && StartsAt(cap, actions, j)
    ensures TrackedAs(Run(cap, actions).ledger.calls, actions[j].id, actions[j].fingerprint)
  {
    hide Run, Step, Sound, TrackedAs;
    var n := |actions| - 1;
    var before := actions[..n];
    RunUnfolds(cap, actions);
    if j < n {
      assert before[..j] == actions[..j];
      FingerprintKept(cap, before, j);
      RunSound(cap, before);
      StepKeepsFingerprint(cap, Run(cap, before), actions[n], actions[j].id, actions[j].fingerprint);
    } else {
      StartTracks(cap, Run(cap, before), actions[n]);
    }
  }

  lemma StartTracks(cap: nat, w: World, a: Action)
    requires a.Invoke? && Call(w.ledger, a.id, a.fingerprint).1 == Started
    ensures TrackedAs(Step(cap, w, a).ledger.calls, a.id, a.fingerprint)
  {
  }

  lemma RunUnfolds(cap: nat, actions: seq<Action>)
    requires actions != []
    ensures Run(cap, actions) == Step(cap, Run(cap, actions[..|actions| - 1]), actions[|actions| - 1])
  {
  }

  /**
   * A repeated call is answered from the one operation that was started for it: it joins the operation while it is
   * pending, receives its outcome while the settlement order still lists it, and afterwards what the outcome said
   * about execution.  With a fingerprint other than that of the invocation that started it, it is a conflict.
   */
  lemma RepeatedCall(cap: nat, actions: seq<Action>, j: nat, fingerprint: Id)
    requires j < |actions| && StartsAt(cap, actions, j) && !Run(cap, actions).ledger.closed
    ensures var w, id := Run(cap, actions), actions[j].id;
            Call(w.ledger, id, fingerprint) ==
              (w.ledger,
               if fingerprint != actions[j].fingerprint then IdentityConflict
               else if id !in w.outcomes then Joined
               else if id in w.ledger.order then Replayed(w.outcomes[id])
               else EvictedAnswer(w.outcomes[id]))
  {
    hide Run, Counted;
    RunSound(cap, actions);
    FingerprintKept(cap, actions, j);
    var w, id := Run(cap, actions), actions[j].id;
    assert StatusTrue(w.ledger.calls[id].status, id, w.outcomes);
  }

  /** What a caller is told of an outcome that is no longer retained. */
  function EvictedAnswer(outcome: Outcome): Answer {
    match outcome
    case Result(_) => Gone(true, Some(true))
    case Failure(_, indeterminate, started) => Gone(indeterminate, started)
  }

  /** The ledger after a number of passes of the eviction loop, which stops once the bytes fit. */
  function EvictPasses(s: Ledger, cap: nat, passes: nat): Ledger {
    if passes == 0 then s
    else
      var before := EvictPasses(s, cap, passes - 1);
      if before.retainedBytes <= cap || before.order == [] then before else EvictPass(before)
  }

  lemma {:induction false} PassesKeep(s: Ledger, cap: nat, passes: nat)
    requires Evictable(s)
    ensures Evictable(EvictPasses(s, cap, passes))
    ensures Evict(EvictPasses(s, cap, passes), cap) == Evict(s, cap)
  {
    hide Evictable;
    if passes > 0 {
      PassesKeep(s, cap, passes - 1);
      var before := EvictPasses(s, cap, passes - 1);
      if before.retainedBytes > cap && before.order != [] {
        EvictOneKeeps(before);
      }
    }
  }

  /**
   * The guard in the eviction loop that skips an entry never fires: whenever a pending call of a reachable ledger is
   * settled, in every state the loop reaches on its way to the settled ledger the oldest entry is a settled one.
   */
  lemma EvictionNeverSkips(cap: nat, actions: seq<Action>, id: Identity, outcome: Outcome, bytes: nat, passes: nat)
    requires var s := Run(cap, actions).ledger; id in s.calls && s.calls[id].status.Pending?
    ensures var s := Run(cap, actions).ledger;
            var loop := EvictPasses(Retained(s, id, outcome, bytes), cap, passes);
            && (loop.order != [] ==> loop.order[0] in loop.calls && loop.calls[loop.order[0]].status.Settled?)
            && Evict(loop, cap) == Settle(s, cap, id, outcome, bytes)
  {
    RunSound(cap, actions);
    hide Run, Evict, OrderExact, Counted;
    var s := Run(cap, actions).ledger;
    var kept := Retained(s, id, outcome, bytes);
    RetainedKeeps(s, id, outcome, bytes);
    PassesKeep(kept, cap, passes);
    var loop := EvictPasses(kept, cap, passes);
    if loop.order != [] {
      EvictOneKeeps(loop);
    }
  }

  // The client as an object

  class AuthorityClient {
    const maximumRetainedBytes: nat
    var calls: map<Identity, Entry>
    var callIdentityByProviderId: map<ProviderKey, Identity>
    var settledOrder: seq<Identity>
    var retainedResultBytes: int
    var inFlightCalls: int
    var closed: bool

    function Value(): Ledger
      reads this
    {
      Ledger(calls, callIdentityByProviderId, settledOrder, retainedResultBytes, inFlightCalls, closed)
    }

    constructor (maximumRetainedBytes: nat)
      ensures Value() == NewLedger() && this.maximumRetainedBytes == maximumRetainedBytes
    {
      this.maximumRetainedBytes := maximumRetainedBytes;
      calls, callIdentityByProviderId, settledOrder := map[], map[], [];
      retainedResultBytes, inFlightCalls, closed := 0, 0, false;
    }

    method CallCapabilityGateway(id: Identity, fingerprint: Id) returns (answer: Answer)
      modifies this
      ensures (Value(), answer) == Call(old(Value()), id, fingerprint)
    {
      if closed { return Closed; }
      if id.key in callIdentityByProviderId && callIdentityByProviderId[id.key] != id { return IdentityConflict; }
      if id in calls {
        var prior := calls[id];
        if prior.fingerprint != fingerprint { return IdentityConflict; }
        match prior.status {
          case Pending => return Joined;
          case Settled(outcome) => return Replayed(outcome);
          case Evicted(indeterminate, started) => return Gone(indeterminate, started);
        }
      }
      if |calls| >= MAX_TRACKED_CALLS { return IdentityLimit; }
      if inFlightCalls >= MAX_IN_FLIGHT_CALLS { return InFlightLimit; }
      callIdentityByProviderId := callIdentityByProviderId[id.key := id];
      calls := calls[id := Entry(fingerprint, Pending, 0)];
      inFlightCalls := inFlightCalls + 1;
      answer := Started;
    }

    /** Records how an operation ended and evicts the oldest outcomes over the byte cap. */
    method SettleCall(id: Identity, outcome: Outcome, bytes: nat)
      requires id in calls && calls[id].status.Pending?
      modifies this
      ensures Value() == Settle(old(Value()), maximumRetainedBytes, id, outcome, bytes)
    {
      inFlightCalls := inFlightCalls - 1;
      calls := calls[id := calls[id].(status := Settled(outcome), retained := bytes)];
      retainedResultBytes := retainedResultBytes + bytes;
      settledOrder := settledOrder + [id];
      while retainedResultBytes > maximumRetainedBytes && settledOrder != []
        invariant Evict(Value(), maximumRetainedBytes) ==
                  Settle(old(Value()), maximumRetainedBytes, id, outcome, bytes)
        decreases |settledOrder|
      {
        var oldestId := settledOrder[0];
        settledOrder := settledOrder[1..];
        if oldestId !in calls || !calls[oldestId].status.Settled? { continue; }
        var oldest := calls[oldestId];
        retainedResultBytes := retainedResultBytes - oldest.retained;
        calls := calls[oldestId := oldest.(status := Forgotten(oldest.status.outcome), retained := 0)];
      }
    }
  }
}
