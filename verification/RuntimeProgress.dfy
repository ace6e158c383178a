/**
 * What each step of a transaction does, told from the stored rows and the caller's own snapshot: when a commit stores,
 * when it loads again, and that a caller nobody interferes with succeeds.
 */
module RuntimeProgress {
  import opened Common
  import opened Kernel
  import opened KernelLog
  import opened KernelVerdict
  import opened Runtime

  // Scanning the stored rows

  /** No key and no event id of these planned events is stored. */
  ghost predicate Unused(rows: seq<Row>, planned: seq<Planned>) {
    forall i :: 0 <= i < |planned| ==>
      !HasKey(rows, planned[i].idempotencyKey) && !HasEventId(rows, planned[i].draft.eventId)
  }

  ghost predicate UnusedRows(rows: seq<Row>, batch: seq<Row>) {
    forall i :: 0 <= i < |batch| ==>
      !HasKey(rows, batch[i].idempotencyKey) && !HasEventId(rows, batch[i].event.draft.eventId)
  }

  lemma {:induction false} ScanUnused(rows: seq<Row>, batch: seq<Row>)
    ensures Scan(rows, batch) == Ok(0) <==> UnusedRows(rows, batch)
    decreases |batch|
  {
    hide HasKey, HasEventId;
    if batch != [] {
      ScanUnused(rows, batch[1..]);
      assert forall i :: 0 < i < |batch| ==> batch[i] == batch[1..][i - 1];
      if UnusedRows(rows, batch[1..]) && !HasKey(rows, batch[0].idempotencyKey)
         && !HasEventId(rows, batch[0].event.draft.eventId) {
        forall i | 0 <= i < |batch|
          ensures !HasKey(rows, batch[i].idempotencyKey) && !HasEventId(rows, batch[i].event.draft.eventId)
        {
          assert i > 0 ==> batch[i] == batch[1..][i - 1];
        }
      }
    }
  }

  lemma {:induction false} ScanStored(rows: seq<Row>, batch: seq<Row>)
    requires forall i :: 0 <= i < |batch| ==> batch[i] in rows
    ensures Scan(rows, batch) == Ok(|batch|)
    decreases |batch|
  {
    hide HasEventId;
    if batch != [] {
      var k :| 0 <= k < |rows| && rows[k] == batch[0];
      assert HasKey(rows, batch[0].idempotencyKey);
      forall i | 0 <= i < |batch[1..]| ensures batch[1..][i] in rows {
        assert batch[1..][i] == batch[i + 1];
      }
      ScanStored(rows, batch[1..]);
    }
  }

  lemma ChainUnused(rows: seq<Row>, conversationId: Id, head: Head, planned: seq<Planned>)
    ensures UnusedRows(rows, Chain(conversationId, head.sequence, head.hash, planned)) <==> Unused(rows, planned)
  {
    var batch := Chain(conversationId, head.sequence, head.hash, planned);
    forall i | 0 <= i < |planned|
      ensures batch[i].idempotencyKey == planned[i].idempotencyKey && batch[i].event.draft == planned[i].draft
    {
      ChainDrafts(conversationId, head.sequence, head.hash, planned, i);
    }
    hide Chain, HasKey, HasEventId;
  }

  // Committing

  /** The rows behind the caller's snapshot are the ones it is about to store, under the caller's own keys. */
  ghost predicate AlreadyStored(rows: seq<Row>, c: Caller)
    requires c.Appending?
  {
    var n := |c.log.events|;
    && |c.candidate.events| == n + |c.newEvents| <= |rows|
    && forall i :: 0 <= i < |c.newEvents| ==>
         rows[n + i] == Row(c.newEvents[i].idempotencyKey, c.candidate.events[n + i])
  }

  ghost predicate InPlace(rows: seq<Row>, n: nat, batch: seq<Row>) {
    n + |batch| <= |rows| && rows[n..n + |batch|] == batch
  }

  lemma KeysThere(rows: seq<Row>, c: Caller, batch: seq<Row>)
    requires c.Appending? && |batch| == |c.newEvents| && |c.candidate.events| == |c.log.events| + |batch|
    requires forall i :: 0 <= i < |batch| ==>
               batch[i] == Row(c.newEvents[i].idempotencyKey, c.candidate.events[|c.log.events| + i])
    ensures AlreadyStored(rows, c) <==> InPlace(rows, |c.log.events|, batch)
  {
    var n := |c.log.events|;
    if AlreadyStored(rows, c) {
      assert forall i :: 0 <= i < |batch| ==> rows[n..n + |batch|][i] == batch[i];
    }
  }

  lemma CandidateRows(log: seq<Event>, candidate: seq<Event>, planned: seq<Planned>, batch: seq<Row>)
    requires candidate == log + EventsOf(batch) && |batch| == |planned|
    requires forall i :: 0 <= i < |batch| ==> batch[i].idempotencyKey == planned[i].idempotencyKey
    ensures |candidate| == |log| + |batch|
    ensures forall i :: 0 <= i < |batch| ==> batch[i] == Row(planned[i].idempotencyKey, candidate[|log| + i])
  {
    forall i | 0 <= i < |batch| ensures candidate[|log| + i] == batch[i].event {
      assert candidate[|log| + i] == EventsOf(batch)[i];
    }
  }

  lemma BatchStored(bytes: Event -> nat, store: Store, c: Caller)
    requires c.Appending? && CallerSound(bytes, store, c)
    ensures var batch := Chain(store.conversationId, |c.log.events|, HeadHash(c.log.events), c.newEvents);
            |batch| == |c.newEvents| && (AlreadyStored(store.rows, c) <==> InPlace(store.rows, |c.log.events|, batch))
  {
    hide CallerSound, Chain, ValidLog, InPlace, AlreadyStored, EventsOf;
    CandidateShape(bytes, store, c);
    var batch := Chain(store.conversationId, |c.log.events|, HeadHash(c.log.events), c.newEvents);
    ChainKeys(store.conversationId, |c.log.events|, HeadHash(c.log.events), c.newEvents);
    CandidateRows(c.log.events, c.candidate.events, c.newEvents, batch);
    KeysThere(store.rows, c, batch);
  }

  lemma HeadMoves(store: Store, log: Log)
    requires StoreSound(store) && Snapshot(store, log)
    ensures HeadHash(EventsOf(store.rows)) == HeadHash(log.events) <==> |store.rows| == |log.events|
  {
    hide FoldLog, Fold, ValidLog;
    ValidOfFold(log);
    if HeadHash(EventsOf(store.rows)) == HeadHash(log.events) {
      HeadDeterminesLog(LogOf(store), log);
    }
  }

  lemma ValidOfFold(log: Log)
    requires FoldLog(log).Ok?
    ensures ValidLog(log)
  {
    ValidationExact(log);
  }

  lemma SnapshotHead(store: Store, log: Log)
    requires Snapshot(store, log)
    ensures |log.events| <= |store.rows| && EventsOf(store.rows[..|log.events|]) == log.events
  {
    hide FoldLog;
    var n := |log.events|;
    forall i | 0 <= i < n ensures EventsOf(store.rows[..n])[i] == log.events[i] {
      assert EventsOf(store.rows)[i] == log.events[i];
    }
  }

  lemma FreshCommit(bytes: Event -> nat, store: Store, c: Caller)
    requires StoreSound(store) && c.Appending? && CallerSound(bytes, store, c) && Unused(store.rows, c.newEvents)
    ensures var reply := StoreAppend(store, HeadOf(c.log), c.newEvents);
            var batch := Chain(store.conversationId, |c.log.events|, HeadHash(c.log.events), c.newEvents);
            reply == if |store.rows| != |c.log.events| then Err(HeadConflict)
                     else Ok(Appended(store.(rows := store.rows + batch), batch))
  {
    ChainUnused(store.rows, store.conversationId, HeadOf(c.log), c.newEvents);
    ScanUnused(store.rows, Chain(store.conversationId, |c.log.events|, HeadHash(c.log.events), c.newEvents));
    HeadMoves(store, c.log);
    hide Chain, Scan, UnusedRows, Unused, StoreSound, CallerSound;
  }

  lemma UsedCommit(bytes: Event -> nat, store: Store, c: Caller)
    requires c.Appending? && CallerSound(bytes, store, c) && !Unused(store.rows, c.newEvents)
    ensures var reply := StoreAppend(store, HeadOf(c.log), c.newEvents);
            if AlreadyStored(store.rows, c) then reply.Ok? && reply.value.store == store
            else reply.Err? && reply.error != HeadConflict
  {
    SnapshotHead(store, c.log);
    hide Chain, Scan, UnusedRows, Unused, CallerSound, AlreadyStored, StoreAppend, InPlace, StoredRange, HeadHash;
    var head := HeadOf(c.log);
    var batch := Chain(store.conversationId, |c.log.events|, HeadHash(c.log.events), c.newEvents);
    ChainUnused(store.rows, store.conversationId, head, c.newEvents);
    ScanUnused(store.rows, batch);
    BatchStored(bytes, store, c);
    RangeInPlace(store.rows, head, batch);
    ScanNoConflict(store.rows, batch);
    UsedReply(store, head, c.newEvents);
    if AlreadyStored(store.rows, c) {
      InRange(store.rows, |c.log.events|, batch);
      ScanStored(store.rows, batch);
    }
  }

  lemma RangeInPlace(rows: seq<Row>, head: Head, batch: seq<Row>)
    requires head.sequence <= |rows| && HeadHash(EventsOf(rows[..head.sequence])) == head.hash
    ensures StoredRange(rows, head, batch) <==> InPlace(rows, head.sequence, batch)
  {
  }

  lemma UsedReply(store: Store, head: Head, plan: seq<Planned>)
    requires var found := Scan(store.rows, Chain(store.conversationId, head.sequence, head.hash, plan));
             found != Ok(0) && found != Err(HeadConflict)
    ensures var batch := Chain(store.conversationId, head.sequence, head.hash, plan);
            var reply := StoreAppend(store, head, plan);
            if Scan(store.rows, batch) == Ok(|batch|) && StoredRange(store.rows, head, batch)
            then reply == Ok(Appended(store, batch))
            else reply.Err? && reply.error != HeadConflict
  {
    hide Chain, Scan, StoredRange;
  }

  lemma InRange(rows: seq<Row>, n: nat, batch: seq<Row>)
    requires InPlace(rows, n, batch)
    ensures forall i :: 0 <= i < |batch| ==> batch[i] in rows
  {
    forall i | 0 <= i < |batch| ensures batch[i] in rows {
      assert rows[n + i] == batch[i];
    }
  }

  lemma {:induction false} ScanNoConflict(rows: seq<Row>, batch: seq<Row>)
    ensures Scan(rows, batch) != Err(HeadConflict)
    decreases |batch|
  {
    if batch != [] {
      ScanNoConflict(rows, batch[1..]);
    }
  }

  lemma StoredBatch(bytes: Event -> nat, store: Store, c: Caller)
    requires StoreSound(store) && c.Appending? && CallerSound(bytes, store, c) && |store.rows| == |c.log.events|
    ensures var batch := Chain(store.conversationId, |c.log.events|, HeadHash(c.log.events), c.newEvents);
            && EventsOf(store.rows + batch) == c.candidate.events && |batch| == |c.newEvents|
            && forall i :: 0 <= i < |batch| ==> batch[i].idempotencyKey == c.newEvents[i].idempotencyKey
  {
    HeadMoves(store, c.log);
    CandidateOnHead(bytes, store, c);
    ChainKeys(store.conversationId, |c.log.events|, HeadHash(c.log.events), c.newEvents);
    hide Chain, StoreSound, CallerSound;
  }

  /** The rows of a store with the caller's events added behind them. */
  ghost predicate StoredBehind(before: seq<Row>, after: seq<Row>, events: seq<Event>, added: seq<Planned>) {
    && before <= after && EventsOf(after) == events && |after| == |before| + |added|
    && forall i :: 0 <= i < |added| ==> after[|before| + i].idempotencyKey == added[i].idempotencyKey
  }

  /** Where a commit whose reply arrives leaves its caller. */
  ghost predicate CommitAnswer(maximumAttempts: nat, rows: seq<Row>, c: Caller, next: Caller)
    requires c.Appending?
  {
    if Unused(rows, c.newEvents) then
      if |rows| == |c.log.events| then next == Succeeded(c.plan, c.candidate)
      else if c.attempt < maximumAttempts then next == Loading(c.attempt + 1)
      else next == Gone
    else if AlreadyStored(rows, c) then next == Succeeded(c.plan, c.candidate)
    else next == Gone
  }

  ghost predicate CommitStores(before: Store, after: Store, c: Caller)
    requires c.Appending?
  {
    if Unused(before.rows, c.newEvents) && |before.rows| == |c.log.events|
    then after.conversationId == before.conversationId
         && StoredBehind(before.rows, after.rows, c.candidate.events, c.newEvents)
    else after == before
  }

  lemma FreshAnswer(bytes: Event -> nat, maximumAttempts: nat, store: Store, c: Caller)
    requires StoreSound(store) && c.Appending? && CallerSound(bytes, store, c) && Unused(store.rows, c.newEvents)
    ensures var reply := StoreAppend(store, HeadOf(c.log), c.newEvents);
            var after := if reply.Ok? then reply.value.store else store;
            && CommitAnswer(maximumAttempts, store.rows, c, AfterReply(maximumAttempts, c, reply))
            && CommitStores(store, after, c)
  {
    FreshCommit(bytes, store, c);
    if |store.rows| == |c.log.events| {
      StoreNeverReturnsADifferentBatch(bytes, maximumAttempts, store, c);
      StoredBatch(bytes, store, c);
      hide StoreAppend, StoreSound, CallerSound, Unused, AfterReply, Chain, AlreadyStored;
    } else {
      hide StoreAppend, StoreSound, CallerSound, Unused, Chain, AlreadyStored;
    }
  }

  lemma UsedAnswer(bytes: Event -> nat, maximumAttempts: nat, store: Store, c: Caller)
    requires StoreSound(store) && c.Appending? && CallerSound(bytes, store, c) && !Unused(store.rows, c.newEvents)
    ensures var reply := StoreAppend(store, HeadOf(c.log), c.newEvents);
            var after := if reply.Ok? then reply.value.store else store;
            && CommitAnswer(maximumAttempts, store.rows, c, AfterReply(maximumAttempts, c, reply))
            && CommitStores(store, after, c)
  {
    UsedCommit(bytes, store, c);
    if AlreadyStored(store.rows, c) {
      StoreNeverReturnsADifferentBatch(bytes, maximumAttempts, store, c);
      hide StoreAppend, StoreSound, CallerSound, Unused, AfterReply, AlreadyStored;
    } else {
      hide StoreAppend, StoreSound, CallerSound, Unused, AlreadyStored;
    }
  }

  lemma CommitDoes(bytes: Event -> nat, maximumAttempts: nat, w: World, id: nat, replyArrives: bool)
    requires WorldSound(bytes, w) && id in w.callers && w.callers[id].Appending?
    ensures var c, after := w.callers[id], Runtime.Step(bytes, maximumAttempts, w, Commit(id, replyArrives));
            && after.callers.Keys == w.callers.Keys && after.callers == w.callers[id := after.callers[id]]
            && CommitStores(w.store, after.store, c)
            && if replyArrives then CommitAnswer(maximumAttempts, w.store.rows, c, after.callers[id])
               else after.callers[id] == Gone
  {
    hide StoreAppend, AfterReply, CommitAnswer, CommitStores, Unused, WorldSound, CallerSound, StoreSound;
    var c := w.callers[id];
    CallerIsSound(bytes, w, id);
    if Unused(w.store.rows, c.newEvents) {
      FreshAnswer(bytes, maximumAttempts, w.store, c);
    } else {
      UsedAnswer(bytes, maximumAttempts, w.store, c);
    }
  }

  lemma CallerIsSound(bytes: Event -> nat, w: World, id: nat)
    requires WorldSound(bytes, w) && id in w.callers
    ensures StoreSound(w.store) && CallerSound(bytes, w.store, w.callers[id])
  {
    hide CallerSound, StoreSound;
  }

  // Planning

  /** The planned events whose ids the log does not hold, in plan order. */
  function Missing(events: seq<Event>, plan: seq<Planned>): seq<Planned> {
    if plan == [] then []
    else
      var last := plan[|plan| - 1];
      Missing(events, plan[..|plan| - 1]) +
      if exists i :: 0 <= i < |events| && events[i].draft.eventId == last.draft.eventId then [] else [last]
  }

  /** Whatever of the plan the log holds under its id is the very event planned. */
  ghost predicate Agrees(events: seq<Event>, plan: seq<Planned>) {
    forall i, k :: 0 <= i < |plan| && 0 <= k < |events| && events[k].draft.eventId == plan[i].draft.eventId ==>
      events[k].draft == plan[i].draft
  }

  ghost predicate WellPlanned(events: seq<Event>, plan: seq<Planned>) {
    1 <= |plan| <= 64 && UniqueKeys(plan) && UniqueIds(plan) && Agrees(events, plan)
  }

  lemma FoundAgrees(log: Log, p: Planned)
    requires ValidLog(log)
    ensures var found := Lookup(log.events, p.draft.eventId);
            && (found.None? <==> !IdUsed(log.events, p.draft.eventId))
            && (found.None? ==> Agrees(log.events, [p]))
            && (found.Some? ==> (found.value.draft == p.draft <==> Agrees(log.events, [p])))
  {
    HeldIsFound(log, p.draft);
    var found := Lookup(log.events, p.draft.eventId);
    hide Lookup, WellFormedPayload;
    if found.Some? {
      var i :| 0 <= i < |log.events| && log.events[i] == found.value;
      assert [p][0] == p;
      if found.value.draft == p.draft {
        forall k | 0 <= k < |log.events| && log.events[k].draft.eventId == p.draft.eventId
          ensures log.events[k].draft == p.draft
        {
          assert k == i;
        }
      }
    }
  }

  lemma AgreesSnoc(events: seq<Event>, plan: seq<Planned>, last: Planned)
    ensures Agrees(events, plan + [last]) <==> Agrees(events, plan) && Agrees(events, [last])
  {
    var more := plan + [last];
    assert more[|plan|] == last && forall i :: 0 <= i < |plan| ==> more[i] == plan[i];
    if Agrees(events, more) {
      assert Agrees(events, plan);
      forall k | 0 <= k < |events| && events[k].draft.eventId == last.draft.eventId
        ensures events[k].draft == last.draft
      {
        assert events[k].draft.eventId == more[|plan|].draft.eventId;
      }
    }
  }

  lemma NothingDisagrees(events: seq<Event>)
    ensures Agrees(events, [])
  {
  }

  lemma {:induction false} PartitionExactly(log: Log, plan: seq<Planned>)
    requires ValidLog(log)
    ensures Partition(log.events, plan).Ok? <==> Agrees(log.events, plan)
    ensures Partition(log.events, plan).Ok? ==> Partition(log.events, plan).value.newEvents == Missing(log.events, plan)
    decreases |plan|
  {
    hide ValidLog, Agrees, Lookup;
    if plan == [] {
      NothingDisagrees(log.events);
    } else {
      var shorter, last := plan[..|plan| - 1], plan[|plan| - 1];
      assert plan == shorter + [last];
      PartitionExactly(log, shorter);
      AgreesSnoc(log.events, shorter, last);
      FoundAgrees(log, last);
    }
  }

  /** Where a plan leaves the caller that takes it. */
  ghost predicate PlanAnswer(bytes: Event -> nat, attempt: nat, log: Log, plan: seq<Planned>, next: Caller) {
    var missing := Missing(log.events, plan);
    if !WellPlanned(log.events, plan) then next == Gone
    else if missing == [] then next == Succeeded(plan, log)
    else match Append(bytes, log, PlannedDrafts(missing))
      case Err(_) => next == Gone
      case Ok(candidate) => next == Appending(attempt, log, plan, missing, candidate)
  }

  lemma PlanDoes(bytes: Event -> nat, attempt: nat, log: Log, plan: seq<Planned>)
    requires FoldLog(log).Ok?
    ensures PlanAnswer(bytes, attempt, log, plan, PlanStep(bytes, attempt, log, plan))
  {
    hide FoldLog, Partition, Missing, Append, Agrees, UniqueKeys, UniqueIds, ValidLog;
    ValidOfFold(log);
    PartitionExactly(log, plan);
  }

  // Runs

  ghost function Reached(bytes: Event -> nat, maximumAttempts: nat, conversationId: Id, actions: seq<Action>): World {
    Run(bytes, maximumAttempts, World(Store(conversationId, []), map[]), actions)
  }

  lemma ReachedSound(bytes: Event -> nat, maximumAttempts: nat, conversationId: Id, actions: seq<Action>)
    ensures WorldSound(bytes, Reached(bytes, maximumAttempts, conversationId, actions))
  {
    EmptyStoreSound(conversationId);
    TransactionsSafe(bytes, maximumAttempts, World(Store(conversationId, []), map[]), actions);
  }

  lemma RunSnoc(bytes: Event -> nat, maximumAttempts: nat, w: World, actions: seq<Action>, a: Action)
    ensures Run(bytes, maximumAttempts, w, actions + [a]) ==
            Runtime.Step(bytes, maximumAttempts, Run(bytes, maximumAttempts, w, actions), a)
  {
    hide Runtime.Step;
    assert (actions + [a])[..|actions|] == actions;
  }

  /**
   * At any point of any run, a commit stores the caller's events exactly when none of its keys and ids is in use and
   * nothing was stored since its snapshot. If something was, and its reply arrives, the caller loads again until its
   * attempts are used up; events stored before count as stored, and any other collision ends the call.
   */
  lemma CommittedExactly(bytes: Event -> nat, maximumAttempts: nat, conversationId: Id, actions: seq<Action>, id: nat,
                         replyArrives: bool)
    requires var w := Reached(bytes, maximumAttempts, conversationId, actions);
             id in w.callers && w.callers[id].Appending?
    ensures var w := Reached(bytes, maximumAttempts, conversationId, actions);
            var after := Reached(bytes, maximumAttempts, conversationId, actions + [Commit(id, replyArrives)]);
            var c := w.callers[id];
            && after.callers.Keys == w.callers.Keys && after.callers == w.callers[id := after.callers[id]]
            && CommitStores(w.store, after.store, c)
            && if replyArrives then CommitAnswer(maximumAttempts, w.store.rows, c, after.callers[id])
               else after.callers[id] == Gone
  {
    ReachedSound(bytes, maximumAttempts, conversationId, actions);
    RunSnoc(bytes, maximumAttempts, World(Store(conversationId, []), map[]), actions, Commit(id, replyArrives));
    hide Run, WorldSound, CommitAnswer, CommitStores, Runtime.Step;
    CommitDoes(bytes, maximumAttempts, Reached(bytes, maximumAttempts, conversationId, actions), id, replyArrives);
  }

  /** A plan is taken exactly when it is well planned and the log accepts what it adds. */
  lemma PlannedExactly(bytes: Event -> nat, maximumAttempts: nat, conversationId: Id, actions: seq<Action>, id: nat,
                       plan: seq<Planned>)
    requires var w := Reached(bytes, maximumAttempts, conversationId, actions);
             id in w.callers && w.callers[id].Planning?
    ensures var w := Reached(bytes, maximumAttempts, conversationId, actions);
            var after := Reached(bytes, maximumAttempts, conversationId, actions + [Plan(id, plan)]);
            && after.store == w.store && after.callers.Keys == w.callers.Keys
            && after.callers == w.callers[id := after.callers[id]]
            && PlanAnswer(bytes, w.callers[id].attempt, w.callers[id].log, plan, after.callers[id])
  {
    var w := Reached(bytes, maximumAttempts, conversationId, actions);
    ReachedSound(bytes, maximumAttempts, conversationId, actions);
    assert CallerSound(bytes, w.store, w.callers[id]);
    RunSnoc(bytes, maximumAttempts, World(Store(conversationId, []), map[]), actions, Plan(id, plan));
    hide Run, PlanAnswer, PlanStep, FoldLog;
    PlanDoes(bytes, w.callers[id].attempt, w.callers[id].log, plan);
  }

  /** A caller that loads always gets the whole durable log. */
  lemma LoadedAlways(bytes: Event -> nat, maximumAttempts: nat, conversationId: Id, actions: seq<Action>, id: nat)
    requires var w := Reached(bytes, maximumAttempts, conversationId, actions);
             id in w.callers && w.callers[id].Loading?
    ensures var w := Reached(bytes, maximumAttempts, conversationId, actions);
            Reached(bytes, maximumAttempts, conversationId, actions + [Load(id)]) ==
            w.(callers := w.callers[id := Planning(w.callers[id].attempt, LogOf(w.store))])
  {
    var w := Reached(bytes, maximumAttempts, conversationId, actions);
    ReachedSound(bytes, maximumAttempts, conversationId, actions);
    ValidationExact(LogOf(w.store));
    RunSnoc(bytes, maximumAttempts, World(Store(conversationId, []), map[]), actions, Load(id));
    hide Run, ValidLog, LogFault, Fold;
  }

  lemma {:induction false} MissingUnused(rows: seq<Row>, plan: seq<Planned>, p: Planned)
    requires p in Missing(EventsOf(rows), plan)
    ensures !HasEventId(rows, p.draft.eventId)
    decreases |plan|
  {
    var events, last := EventsOf(rows), plan[|plan| - 1];
    if p in Missing(events, plan[..|plan| - 1]) {
      MissingUnused(rows, plan[..|plan| - 1], p);
    } else {
      assert p == last;
      assert forall i :: 0 <= i < |rows| ==> rows[i].event == events[i];
    }
  }

  lemma NewEventsUnused(rows: seq<Row>, plan: seq<Planned>)
    requires forall p <- Missing(EventsOf(rows), plan) :: !HasKey(rows, p.idempotencyKey)
    ensures Unused(rows, Missing(EventsOf(rows), plan))
  {
    var missing := Missing(EventsOf(rows), plan);
    hide Missing, HasKey, HasEventId;
    forall i | 0 <= i < |missing|
      ensures !HasKey(rows, missing[i].idempotencyKey) && !HasEventId(rows, missing[i].draft.eventId)
    {
      assert missing[i] in missing;
      MissingUnused(rows, plan, missing[i]);
    }
  }

  lemma NothingAppended(bytes: Event -> nat, log: Log)
    requires FoldLog(log).Ok?
    ensures Append(bytes, log, []) == Ok(log)
  {
    hide FoldLog;
    assert AppendAll(bytes, Folded(log, FoldLog(log).value), []) == Ok(Folded(log, FoldLog(log).value));
  }

  /** What the store must be for a plan to go through: the kernel accepts its new events and their keys are unused. */
  ghost predicate Appendable(bytes: Event -> nat, store: Store, plan: seq<Planned>) {
    var missing := Missing(EventsOf(store.rows), plan);
    && WellPlanned(EventsOf(store.rows), plan) && Append(bytes, LogOf(store), PlannedDrafts(missing)).Ok?
    && forall p <- missing :: !HasKey(store.rows, p.idempotencyKey)
  }

  /**
   * Progress: from any point of any run, a caller that loads, plans and commits with no other step between succeeds
   * with whatever plan the log accepts, and its new events are then stored behind everything stored before.
   */
  lemma UndisturbedSucceeds(bytes: Event -> nat, maximumAttempts: nat, conversationId: Id, actions: seq<Action>,
                            id: nat, plan: seq<Planned>)
    requires var w := Reached(bytes, maximumAttempts, conversationId, actions);
             id in w.callers && w.callers[id].Loading? && Appendable(bytes, w.store, plan)
    ensures var w := Reached(bytes, maximumAttempts, conversationId, actions);
            var missing := Missing(EventsOf(w.store.rows), plan);
            var log := Append(bytes, LogOf(w.store), PlannedDrafts(missing)).value;
            var after := Reached(bytes, maximumAttempts, conversationId,
                                 actions + [Load(id), Plan(id, plan), Commit(id, true)]);
            && id in after.callers && after.callers[id] == Succeeded(plan, log)
            && StoredBehind(w.store.rows, after.store.rows, log.events, missing)
  {
    hide Run, Missing, FoldLog, Append, WellPlanned, HasKey, Unused, StoredBehind;
    var w := Reached(bytes, maximumAttempts, conversationId, actions);
    LoadedAlways(bytes, maximumAttempts, conversationId, actions, id);
    var loaded := actions + [Load(id)];
    PlannedExactly(bytes, maximumAttempts, conversationId, loaded, id, plan);
    var planned := loaded + [Plan(id, plan)];
    var x := Reached(bytes, maximumAttempts, conversationId, planned);
    var missing := Missing(EventsOf(w.store.rows), plan);
    assert actions + [Load(id), Plan(id, plan), Commit(id, true)] == planned + [Commit(id, true)];
    if missing == [] {
      ReachedSound(bytes, maximumAttempts, conversationId, actions);
      AlreadyThere(bytes, w, plan);
      RunSnoc(bytes, maximumAttempts, World(Store(conversationId, []), map[]), planned, Commit(id, true));
    } else {
      NewEventsUnused(w.store.rows, plan);
      CommittedExactly(bytes, maximumAttempts, conversationId, planned, id, true);
    }
  }

  lemma AlreadyThere(bytes: Event -> nat, w: World, plan: seq<Planned>)
    requires WorldSound(bytes, w)
    ensures Append(bytes, LogOf(w.store), PlannedDrafts([])) == Ok(LogOf(w.store))
    ensures StoredBehind(w.store.rows, w.store.rows, LogOf(w.store).events, [])
  {
    ValidationExact(LogOf(w.store));
    hide ValidLog, Append;
    assert PlannedDrafts([]) == [];
    NothingAppended(bytes, LogOf(w.store));
  }
}
